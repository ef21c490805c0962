/**
 * The request-body gate (routes/middleware/validateBodyWith.js): run a
 * validator, continue on exactly `true`, otherwise answer 400 with the errors
 * keyed by field.
 */
module ValidateBody {
  import Http

  /** One entry of a validator's error list. */
  datatype FieldError = FieldError(field: string, message: string)

  /** A validator's answer: exactly `true`, or a list of errors (possibly empty). */
  datatype ValidatorResult = True | Errors(list: seq<FieldError>)

  /** The fields named in an error list. */
  function FieldsOf(errors: seq<FieldError>): (fs: set<string>)
    ensures forall i :: 0 <= i < |errors| ==> errors[i].field in fs
  {
    set i | 0 <= i < |errors| :: errors[i].field
  }

  /** Entry `i` is the last one for its field. */
  predicate LastFor(errors: seq<FieldError>, i: int) {
    0 <= i < |errors| && forall j :: i < j < |errors| ==> errors[j].field != errors[i].field
  }

  /** The `reduce` callback applied left to right, starting from `acc`. */
  function Fold(acc: map<string, string>, errors: seq<FieldError>): (r: map<string, string>)
    ensures acc.Keys <= r.Keys
    ensures errors == [] ==> r == acc
    decreases |errors|
  {
    if |errors| == 0 then acc
    else Fold(acc[errors[0].field := errors[0].message], errors[1..])
  }

  lemma {:induction false} FoldKeys(acc: map<string, string>, errors: seq<FieldError>)
    ensures Fold(acc, errors).Keys == acc.Keys + FieldsOf(errors)
    decreases |errors|
  {
    if |errors| > 0 {
      var e := errors[0];
      FoldKeys(acc[e.field := e.message], errors[1..]);
      assert FieldsOf(errors) == {e.field} + FieldsOf(errors[1..]) by {
        forall f | f in FieldsOf(errors) ensures f in {e.field} + FieldsOf(errors[1..]) {
          var i :| 0 <= i < |errors| && errors[i].field == f;
          if i > 0 { assert errors[1..][i - 1].field == f; }
        }
        forall f | f in FieldsOf(errors[1..]) ensures f in FieldsOf(errors) {
          var i :| 0 <= i < |errors[1..]| && errors[1..][i].field == f;
          assert errors[i + 1].field == f;
        }
      }
    }
  }

  /** A field the remaining errors do not name keeps its accumulated message. */
  lemma {:induction false} FoldKeepsOthers(acc: map<string, string>, errors: seq<FieldError>, f: string)
    requires f in acc
    requires forall j :: 0 <= j < |errors| ==> errors[j].field != f
    ensures f in Fold(acc, errors) && Fold(acc, errors)[f] == acc[f]
    decreases |errors|
  {
    if |errors| > 0 {
      var e := errors[0];
      assert e.field != f;
      forall j | 0 <= j < |errors[1..]| ensures errors[1..][j].field != f {
        assert errors[1..][j] == errors[j + 1];
      }
      FoldKeepsOthers(acc[e.field := e.message], errors[1..], f);
    }
  }

  /** The last entry for a field decides its message. */
  lemma {:induction false} FoldLastWins(acc: map<string, string>, errors: seq<FieldError>, i: int)
    requires LastFor(errors, i)
    ensures errors[i].field in Fold(acc, errors)
    ensures Fold(acc, errors)[errors[i].field] == errors[i].message
    decreases |errors|
  {
    var e := errors[0];
    if i == 0 {
      forall j | 0 <= j < |errors[1..]| ensures errors[1..][j].field != e.field {
        assert errors[1..][j] == errors[j + 1];
      }
      FoldKeepsOthers(acc[e.field := e.message], errors[1..], e.field);
    } else {
      assert errors[1..][i - 1] == errors[i];
      forall j | i - 1 < j < |errors[1..]| ensures errors[1..][j].field != errors[i].field {
        assert errors[1..][j] == errors[j + 1];
      }
      FoldLastWins(acc[e.field := e.message], errors[1..], i - 1);
    }
  }

  /** `mapValidationErrors`: one key per field named, holding its last message. */
  function MapValidationErrors(errors: seq<FieldError>): (m: map<string, string>)
    ensures m.Keys == FieldsOf(errors)
    ensures forall i :: LastFor(errors, i) ==> m[errors[i].field] == errors[i].message
    ensures errors == [] ==> m == map[]
  {
    FoldKeys(map[], errors);
    assert forall i :: LastFor(errors, i) ==> Fold(map[], errors)[errors[i].field] == errors[i].message by {
      forall i | LastFor(errors, i) ensures Fold(map[], errors)[errors[i].field] == errors[i].message {
        FoldLastWins(map[], errors, i);
      }
    }
    Fold(map[], errors)
  }

  /** What the middleware does: call `next()`, or send a response and stop. */
  datatype GateOutcome = Next | Halt(response: Http.Response)

  /** The middleware `validateBodyWith(validator)` applied to a request body. */
  function ValidateBodyWith<B>(validator: B -> ValidatorResult, body: B): (o: GateOutcome)
    ensures o.Next? <==> validator(body).True?
    ensures o.Halt? ==> o.response.status == 400
    ensures o.Halt? ==> o.response.body == Http.Messages(MapValidationErrors(validator(body).list))
  {
    match validator(body)
    case True => Next
    case Errors(list) => Halt(Http.Response(400, Http.Messages(MapValidationErrors(list))))
  }

  /** An empty error list is not `true`: the request is still refused, with `{}`. */
  lemma EmptyErrorListRejects<B>(validator: B -> ValidatorResult, body: B)
    requires validator(body) == Errors([])
    ensures ValidateBodyWith(validator, body) == Halt(Http.Response(400, Http.Messages(map[])))
  {
  }
}
