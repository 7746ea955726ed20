/** The one-time codes of a user account: a six-digit e-mail verification
    code and a six-digit password-reset code, each stored with its expiry
    time, each accepted once. The clock (`datetime.utcnow()`) and the random
    digit picks (`random.choices(string.digits, k=6)`) are parameters. */
module OneTimeCode {
  import opened Wrappers
  import opened Numerals

  /** A point in time, in microseconds (the resolution of Python's
      `datetime`). */
  type Instant = int

  /** `timedelta(minutes=30)`, in microseconds. */
  const CodeLifetime: int := 30 * 60 * 1_000_000

  /** The number of digits drawn for a code (`k=6`). */
  const CodeLength: nat := 6

  predicate IsOneTimeCode(code: string) {
    |code| == CodeLength && AllDigits(code)
  }

  /** `''.join(picks)`, where each pick is the index of a character of
      `string.digits`. */
  function CodeOf(picks: seq<nat>): (code: string)
    requires forall i :: 0 <= i < |picks| ==> picks[i] < 10
    ensures |code| == |picks| && AllDigits(code)
    ensures forall i :: 0 <= i < |picks| ==> DigitValue(code[i]) == picks[i]
  {
    seq(|picks|, i requires 0 <= i < |picks| => DigitChar(picks[i]))
  }

  /** A stored code together with its expiry; `None` is SQL NULL. */
  datatype Slot = Slot(code: Option<string>, expires: Option<Instant>)

  const EmptySlot: Slot := Slot(None, None)

  /** The guard `not code or not expires`, negated: a code that is set and
      not the empty string (Python's truthiness), and an expiry that is set. */
  predicate Armed(slot: Slot) {
    slot.code.Some? && slot.code.value != [] && slot.expires.Some?
  }

  /** Whether a submitted code is accepted at time `now`: the slot is armed,
      `now` is not after the expiry (the comparison is a strict `>`, so the
      expiry instant itself still counts) and the codes are equal. */
  predicate Accepts(slot: Slot, submitted: string, now: Instant)
    ensures Accepts(slot, submitted, now) ==>
              submitted != [] && slot.expires.Some? && now <= slot.expires.value
  {
    Armed(slot) && now <= slot.expires.value && slot.code.value == submitted
  }

  /** A slot just issued at `issuedAt` accepts exactly its own code, up to
      and including the instant thirty minutes later. */
  lemma IssuedAccepts(code: string, issuedAt: Instant, submitted: string, now: Instant)
    requires IsOneTimeCode(code)
    ensures Accepts(Slot(Some(code), Some(issuedAt + CodeLifetime)), submitted, now)
            <==> submitted == code && now <= issuedAt + CodeLifetime
  {
    assert |code| == 6;
  }

  /** A cleared slot accepts nothing: a code works once. */
  lemma EmptyRejects(submitted: string, now: Instant)
    ensures !Accepts(EmptySlot, submitted, now)
  {
  }

  /** An empty stored code is rejected even when the empty string is
      submitted, because the guard treats `''` as unset. */
  lemma EmptyCodeRejects(expires: Option<Instant>, now: Instant)
    ensures !Accepts(Slot(Some([]), expires), [], now)
  {
  }

  class User {
    var verificationCode: Option<string>
    var verificationCodeExpires: Option<Instant>
    var resetCode: Option<string>
    var resetCodeExpires: Option<Instant>

    /** A new account: no code of either kind. */
    constructor ()
      ensures VerificationSlot() == EmptySlot && ResetSlot() == EmptySlot
    {
      verificationCode, verificationCodeExpires := None, None;
      resetCode, resetCodeExpires := None, None;
    }

    function VerificationSlot(): Slot
      reads this
    {
      Slot(verificationCode, verificationCodeExpires)
    }

    function ResetSlot(): Slot
      reads this
    {
      Slot(resetCode, resetCodeExpires)
    }

    /** `generate_verification_code`: a fresh six-digit code, valid for
        thirty minutes from `now`, replaces whatever verification code was
        stored; the reset code is untouched. */
    method GenerateVerificationCode(picks: seq<nat>, now: Instant) returns (code: string)
      requires |picks| == CodeLength && forall i :: 0 <= i < |picks| ==> picks[i] < 10
      modifies this`verificationCode, this`verificationCodeExpires
      ensures IsOneTimeCode(code) && code == CodeOf(picks)
      ensures VerificationSlot() == Slot(Some(code), Some(now + CodeLifetime))
    {
      code := CodeOf(picks);
      verificationCode := Some(code);
      verificationCodeExpires := Some(now + CodeLifetime);
    }

    /** `verify_code`: accepted exactly when `Accepts` holds of the stored
        slot; acceptance clears the slot, a rejection changes nothing. */
    method VerifyCode(code: string, now: Instant) returns (ok: bool)
      modifies this`verificationCode, this`verificationCodeExpires
      ensures ok <==> Accepts(old(VerificationSlot()), code, now)
      ensures VerificationSlot() == if ok then EmptySlot else old(VerificationSlot())
    {
      if verificationCode.None? || verificationCode.value == [] || verificationCodeExpires.None? {
        return false;
      }
      if now > verificationCodeExpires.value {
        return false;
      }
      ok := verificationCode.value == code;
      if ok {
        verificationCode := None;
        verificationCodeExpires := None;
      }
    }

    /** `generate_reset_code`: the same as for the verification code, on the
        reset slot. */
    method GenerateResetCode(picks: seq<nat>, now: Instant) returns (code: string)
      requires |picks| == CodeLength && forall i :: 0 <= i < |picks| ==> picks[i] < 10
      modifies this`resetCode, this`resetCodeExpires
      ensures IsOneTimeCode(code) && code == CodeOf(picks)
      ensures ResetSlot() == Slot(Some(code), Some(now + CodeLifetime))
    {
      code := CodeOf(picks);
      resetCode := Some(code);
      resetCodeExpires := Some(now + CodeLifetime);
    }

    /** `verify_reset_code`: the same as `verify_code`, on the reset slot. */
    method VerifyResetCode(code: string, now: Instant) returns (ok: bool)
      modifies this`resetCode, this`resetCodeExpires
      ensures ok <==> Accepts(old(ResetSlot()), code, now)
      ensures ResetSlot() == if ok then EmptySlot else old(ResetSlot())
    {
      if resetCode.None? || resetCode.value == [] || resetCodeExpires.None? {
        return false;
      }
      if now > resetCodeExpires.value {
        return false;
      }
      ok := resetCode.value == code;
      if ok {
        resetCode := None;
        resetCodeExpires := None;
      }
    }
  }

  /** A code issued at `issuedAt` and submitted twice within its thirty
      minutes: the first submission is accepted, the second rejected. */
  method SingleUseScenario(picks: seq<nat>, issuedAt: Instant, now: Instant) returns (first: bool, second: bool)
    requires |picks| == CodeLength && forall i :: 0 <= i < |picks| ==> picks[i] < 10
    requires issuedAt <= now <= issuedAt + CodeLifetime
    ensures first && !second
  {
    var user := new User();
    var code := user.GenerateVerificationCode(picks, issuedAt);
    IssuedAccepts(code, issuedAt, code, now);
    first := user.VerifyCode(code, now);
    second := user.VerifyCode(code, now);
  }

  /** The expiry instant itself is accepted; one microsecond later is not,
      and the rejected code stays stored. */
  method ExpiryScenario(picks: seq<nat>, issuedAt: Instant) returns (atExpiry: bool, afterExpiry: bool, stillStored: bool)
    requires |picks| == CodeLength && forall i :: 0 <= i < |picks| ==> picks[i] < 10
    ensures atExpiry && !afterExpiry && stillStored
  {
    var early := new User();
    var code := early.GenerateVerificationCode(picks, issuedAt);
    IssuedAccepts(code, issuedAt, code, issuedAt + CodeLifetime);
    atExpiry := early.VerifyCode(code, issuedAt + CodeLifetime);
    var late := new User();
    code := late.GenerateVerificationCode(picks, issuedAt);
    IssuedAccepts(code, issuedAt, code, issuedAt + CodeLifetime + 1);
    afterExpiry := late.VerifyCode(code, issuedAt + CodeLifetime + 1);
    stillStored := late.verificationCode == Some(code);
  }

  /** A wrong code is rejected and leaves the stored code usable: the right
      code is still accepted afterwards. */
  method WrongCodeScenario(picks: seq<nat>, wrong: string, issuedAt: Instant, now: Instant)
    returns (wrongResult: bool, rightResult: bool)
    requires |picks| == CodeLength && forall i :: 0 <= i < |picks| ==> picks[i] < 10
    requires wrong != CodeOf(picks)
    requires issuedAt <= now <= issuedAt + CodeLifetime
    ensures !wrongResult && rightResult
  {
    var user := new User();
    var code := user.GenerateVerificationCode(picks, issuedAt);
    IssuedAccepts(code, issuedAt, wrong, now);
    wrongResult := user.VerifyCode(wrong, now);
    IssuedAccepts(code, issuedAt, code, now);
    rightResult := user.VerifyCode(code, now);
  }

  /** The two slots are independent: issuing and using a reset code neither
      consumes nor replaces the verification code, and the verification code
      is not accepted as a reset code. */
  method IndependentSlotsScenario(verifyPicks: seq<nat>, resetPicks: seq<nat>, issuedAt: Instant, now: Instant)
    returns (crossed: bool, resetResult: bool, verifyResult: bool)
    requires |verifyPicks| == CodeLength && forall i :: 0 <= i < |verifyPicks| ==> verifyPicks[i] < 10
    requires |resetPicks| == CodeLength && forall i :: 0 <= i < |resetPicks| ==> resetPicks[i] < 10
    requires CodeOf(verifyPicks) != CodeOf(resetPicks)
    requires issuedAt <= now <= issuedAt + CodeLifetime
    ensures !crossed && resetResult && verifyResult
  {
    var user := new User();
    var verifyCode := user.GenerateVerificationCode(verifyPicks, issuedAt);
    var resetCode := user.GenerateResetCode(resetPicks, issuedAt);
    IssuedAccepts(resetCode, issuedAt, verifyCode, now);
    crossed := user.VerifyResetCode(verifyCode, now);
    IssuedAccepts(resetCode, issuedAt, resetCode, now);
    resetResult := user.VerifyResetCode(resetCode, now);
    IssuedAccepts(verifyCode, issuedAt, verifyCode, now);
    verifyResult := user.VerifyCode(verifyCode, now);
  }
}
