/** The part of express-validator the rule chains rely on: each validator of
    a chain runs (no `bail`), a failing validator adds one error carrying its
    `withMessage` code, `.optional({checkFalsy: true})` skips a chain on a
    falsy value, and chains report in declaration order.  Also the
    `validate` formatter, which the four validator files define identically. */
module Chains {
  import opened Common
  import opened Envelope
  import Dni

  /** One validator followed by `.withMessage(code)`, or a custom validator
      that throws or rejects with `code`. */
  function Check(ok: bool, field: Name, code: Code): (errs: seq<FieldError>)
    ensures ok <==> errs == []
    ensures |errs| <= 1
    ensures forall e | e in errs :: e == Err(field, code)
    ensures AllOn(errs, field)
  {
    if ok then [] else [Err(field, code)]
  }

  /** `validateDNI`, which the patient and professional validators define
      alike: a custom validator throwing DNI_INVALID_FORMAT unless
      `nif_valido` accepts. */
  function ValidateDni(value: string): (errs: seq<FieldError>)
    ensures errs == [] <==> Dni.NifValido(value)
    ensures errs != [] ==> errs == [Err(Name.Dni, DniInvalidFormat)]
    ensures AllOn(errs, Name.Dni)
  {
    Check(Dni.NifValido(value), Name.Dni, DniInvalidFormat)
  }

  /** Every error is reported on `field`. */
  predicate AllOn(errs: seq<FieldError>, field: Name)
  {
    forall e | e in errs :: e.field == field
  }

  lemma AllOnConcat(a: seq<FieldError>, b: seq<FieldError>, field: Name)
    requires AllOn(a, field) && AllOn(b, field)
    ensures AllOn(a + b, field)
  {
  }

  /** Three validators' errors on one field, concatenated. */
  lemma Concat3(a: seq<FieldError>, b: seq<FieldError>, c: seq<FieldError>, field: Name)
    requires AllOn(a, field) && AllOn(b, field) && AllOn(c, field)
    ensures AllOn(a + b + c, field)
    ensures a + b + c == [] <==> a == [] && b == [] && c == []
  {
    AllOnConcat(a, b, field);
    AllOnConcat(a + b, c, field);
    assert |a + b + c| == |a| + |b| + |c|;
  }

  /** Four error lists joined are empty iff each one is. */
  lemma NoneOf4(a: seq<FieldError>, b: seq<FieldError>, c: seq<FieldError>, d: seq<FieldError>)
    ensures a + b + c + d == [] <==> a == [] && b == [] && c == [] && d == []
  {
    assert |a + b + c + d| == |a| + |b| + |c| + |d|;
  }

  lemma NoneOf2(a: seq<FieldError>, b: seq<FieldError>)
    ensures a + b == [] <==> a == [] && b == []
  {
    assert |a + b| == |a| + |b|;
  }

  /** `.optional({checkFalsy: true})` in front of a chain whose errors are
      `errs`: a falsy (empty) value skips every validator. */
  function Optional(value: string, errs: seq<FieldError>): (r: seq<FieldError>)
    ensures value == "" ==> r == []
    ensures value != "" ==> r == errs
  {
    if value == "" then [] else errs
  }

  /** validator.js `isLength({min, max})`, taken as a count of code points
      (validator.js also leaves the variation selectors U+FE0E and U+FE0F out
      of the count, which this predicate does not). */
  predicate LengthIn(s: string, min: nat, max: nat) { min <= |s| <= max }

  /** The fields the chains reported errors on, in order. */
  function Fields(errs: seq<FieldError>): seq<Name>
  {
    seq(|errs|, i requires 0 <= i < |errs| => errs[i].field)
  }

  /** The codes reported for one field, in order. */
  function CodesFor(errs: seq<FieldError>, field: Name): (r: seq<Code>)
    ensures |r| <= |errs|
  {
    if errs == [] then []
    else (if errs[0].field == field then [errs[0].code] else []) + CodesFor(errs[1..], field)
  }

  lemma {:induction false} CodesForAppend(a: seq<FieldError>, b: seq<FieldError>, field: Name)
    ensures CodesFor(a + b, field) == CodesFor(a, field) + CodesFor(b, field)
  {
    if a == [] {
      assert a + b == b;
    } else {
      assert (a + b)[0] == a[0];
      assert (a + b)[1..] == a[1..] + b;
      CodesForAppend(a[1..], b, field);
      assert CodesFor(a + b, field)
        == (if a[0].field == field then [a[0].code] else []) + CodesFor(a[1..] + b, field);
    }
  }

  /** A field that none of the errors names has no codes. */
  lemma {:induction false} CodesForAbsent(errs: seq<FieldError>, field: Name)
    requires forall i | 0 <= i < |errs| :: errs[i].field != field
    ensures CodesFor(errs, field) == []
  {
    if errs != [] {
      CodesForAbsent(errs[1..], field);
    }
  }

  // ---------------------------------------------------------------------
  // validate

  /** What a middleware does with a request: pass it on, or answer. */
  datatype Gate = Next | Halt(reply: Reply<()>)

  /** `{field: err.param, code: err.msg, meta: err.meta || {}}` */
  function Format(errs: seq<FieldError>): (out: seq<FieldError>)
    ensures |out| == |errs|
    ensures forall i | 0 <= i < |errs| ::
      out[i].field == errs[i].field && out[i].code == errs[i].code && out[i].meta.Some?
  {
    seq(|errs|, i requires 0 <= i < |errs| =>
      FieldError(errs[i].field, errs[i].code, if errs[i].meta.Some? then errs[i].meta else Some(Empty)))
  }

  /** `validate`: with no errors the request passes on; otherwise the answer
      is 400 `{success: false, message: VALIDATION_FAILED, errors}` listing
      every error in order. */
  function Validate(errs: seq<FieldError>): (g: Gate)
    ensures g.Next? <==> errs == []
    ensures g.Halt? ==> g.reply.status == 400 && g.reply.body.Rejected?
    ensures g.Halt? ==> CodeOf(g.reply.body) == Some(ValidationFailed)
    ensures g.Halt? ==> Fields(g.reply.body.entries) == Fields(errs)
  {
    if errs == [] then Next else Halt(Reply(400, Rejected(Format(errs))))
  }

  /** Every error a chain reports reaches the answer, with its code, and
      an error without `meta` is answered with `meta: {}`. */
  lemma ValidateListsEveryError(errs: seq<FieldError>, i: int)
    requires 0 <= i < |errs|
    ensures Validate(errs).Halt?
    ensures var e := Validate(errs).reply.body.entries[i];
      e.field == errs[i].field && e.code == errs[i].code
      && (errs[i].meta.None? ==> e.meta == Some(Empty))
  {
  }

  /** Chains concatenate: the request passes iff every chain passed. */
  lemma ValidateConcat(a: seq<FieldError>, b: seq<FieldError>)
    ensures Validate(a + b).Next? <==> Validate(a).Next? && Validate(b).Next?
  {
    assert |a + b| == |a| + |b|;
  }
}
