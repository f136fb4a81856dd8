/**
  The response base shared by every handler (app/api/v1/controller/base_controller.go):
  a code and a message, with the two helpers that fill the message in.
*/
module BaseController {
  import opened Errors

  /** A beego *validation.Error, reduced to the two fields the message is built from. */
  datatype ValidationError = ValidationError(key: string, message: string)

  /** What beego's validator.Valid(&req) reports: an internal error, or the list of failed checks (valid when empty). */
  datatype Validation = ValidatorFailed(err: Error) | Checked(errors: seq<ValidationError>)

  /** The text SetValidationErrors appends for one error. */
  function Entry(e: ValidationError): string
  {
    e.key + ":" + e.message + ";"
  }

  /** The text SetValidationErrors appends for a list of errors: their entries, in list order. */
  function ValidationText(errs: seq<ValidationError>): string
  {
    if errs == [] then "" else ValidationText(errs[..|errs| - 1]) + Entry(errs[|errs| - 1])
  }

  /** The characters each error contributes: its key, its message and the two separators. */
  function EntrySizes(errs: seq<ValidationError>): nat
  {
    if errs == [] then 0 else |errs[0].key| + |errs[0].message| + 2 + EntrySizes(errs[1..])
  }

  /** The text for a concatenation is the concatenation of the texts. */
  lemma {:induction false} ValidationTextAppend(a: seq<ValidationError>, b: seq<ValidationError>)
    ensures ValidationText(a + b) == ValidationText(a) + ValidationText(b)
  {
    if b == [] {
      assert a + b == a;
    } else {
      var b' := b[..|b| - 1];
      assert (a + b)[..|a + b| - 1] == a + b';
      ValidationTextAppend(a, b');
    }
  }

  /** The text of one error is exactly its entry. */
  lemma ValidationTextSingle(e: ValidationError)
    ensures ValidationText([e]) == e.key + ":" + e.message + ";"
  {
    assert [e][..0] == [];
  }

  /** The k-th error's entry sits between the texts of the errors before and after it. */
  lemma {:induction false} ValidationTextAt(errs: seq<ValidationError>, k: nat)
    requires k < |errs|
    ensures ValidationText(errs) == ValidationText(errs[..k]) + Entry(errs[k]) + ValidationText(errs[k + 1..])
  {
    var before, after := errs[..k], errs[k + 1..];
    assert errs == before + [errs[k]] + after;
    ValidationTextAppend(before + [errs[k]], after);
    ValidationTextAppend(before, [errs[k]]);
    ValidationTextSingle(errs[k]);
  }

  /** The appended text is as long as the keys and messages plus two separators per error. */
  lemma {:induction false} ValidationTextLength(errs: seq<ValidationError>)
    ensures |ValidationText(errs)| == EntrySizes(errs)
  {
    if errs != [] {
      assert errs == [errs[0]] + errs[1..];
      ValidationTextAppend([errs[0]], errs[1..]);
      ValidationTextSingle(errs[0]);
      ValidationTextLength(errs[1..]);
    }
  }

  /** Response: the code and message every handler serves. */
  class Response {
    var code: int
    var message: string

    constructor (code: int)
      ensures this.code == code && message == ""
    {
      this.code := code;
      message := "";
    }

    /** r.Message = err.Error() */
    method SetError(err: Error)
      modifies this
      ensures message == err.Text()
      ensures code == old(code)
    {
      message := err.Text();
    }

    /** Appends "Key:Message;" for each error, in list order, after the message already there. */
    method SetValidationErrors(errs: seq<ValidationError>)
      modifies this
      ensures message == old(message) + ValidationText(errs)
      ensures code == old(code)
    {
      for i := 0 to |errs|
        invariant message == old(message) + ValidationText(errs[..i])
        invariant code == old(code)
      {
        assert errs[..i + 1][..i] == errs[..i];
        message := message + errs[i].key + ":" + errs[i].message + ";";
      }
      assert errs[..|errs|] == errs;
    }
  }
}
