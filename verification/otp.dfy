/**
 * The one-time password of a user (`OTP`): issuing a six-digit code that
 * lives five minutes, and checking a submitted code against it.
 *
 * The clock is a parameter (`now`, in microseconds), and so are the six
 * draws of `random.randint(0, 9)`.
 */
module Otp {
  import opened Wrappers
  import opened Text
  import opened Numbers

  /** The number of digits in a code. */
  const CodeLength := 6

  /** Five minutes, in microseconds. */
  const Lifetime := 5 * 60 * 1_000_000

  /** The stored record: the code and its expiry, both empty until a code is first issued. */
  datatype Record = Record(code: Option<string>, expiresAt: Option<int>)

  /** A record as `get_or_create` makes it. */
  function NewRecord(): (r: Record)
    ensures r.code.None? && r.expiresAt.None?
  {
    Record(None, None)
  }

  /** Six draws, each from 0 to 9. */
  predicate Draws(ds: seq<nat>) {
    |ds| == CodeLength && forall i :: 0 <= i < |ds| ==> ds[i] <= 9
  }

  /** The code `"".join(str(d) for d in draws)`. */
  function CodeOf(ds: seq<nat>): (code: string)
    requires forall i :: 0 <= i < |ds| ==> ds[i] <= 9
    ensures |code| == |ds|
    ensures forall i :: 0 <= i < |code| ==> IsDigit(code[i]) && DigitValue(code[i]) == ds[i]
  {
    if |ds| == 0 then [] else [DigitChar(ds[0])] + CodeOf(ds[1..])
  }

  /** Different draws give different codes: every code keeps all six draws. */
  lemma CodeOfInjective(ds: seq<nat>, es: seq<nat>)
    requires Draws(ds) && Draws(es) && CodeOf(ds) == CodeOf(es)
    ensures ds == es
  {
    assert forall i :: 0 <= i < |ds| ==> ds[i] == DigitValue(CodeOf(ds)[i]) == es[i];
  }

  /**
   * `generate_otp`: stores a fresh code from the draws and an expiry five
   * minutes from now, and returns the code it stored.
   */
  function Generate(r: Record, ds: seq<nat>, now: int): (res: (Record, string))
    requires Draws(ds)
    ensures |res.1| == CodeLength && forall i :: 0 <= i < |res.1| ==> IsDigit(res.1[i])
    ensures res.0 == Record(Some(res.1), Some(now + Lifetime))
  {
    var code := CodeOf(ds);
    (Record(Some(code), Some(now + Lifetime)), code)
  }

  /** Comparing the expiry with the clock when there is no expiry raises `TypeError`. */
  datatype OtpError = NoExpiry

  /**
   * `validate_otp`: the submitted code must equal the stored one, and the
   * expiry must be strictly later than now. The expiry is looked at only
   * when the codes match.
   */
  function Validate(r: Record, input: string, now: int): (res: Result<bool, OtpError>)
    ensures res.Failure? <==> r.code == Some(input) && r.expiresAt.None?
    ensures res.Success? ==> (res.value <==> r.code == Some(input) && r.expiresAt.value > now)
  {
    if r.code != Some(input) then Success(false)
    else match r.expiresAt
      case None => Failure(NoExpiry)
      case Some(t) => Success(t > now)
  }

  /** A record no code was issued for accepts nothing. */
  lemma FreshRecordRejects(input: string, now: int)
    ensures Validate(NewRecord(), input, now) == Success(false)
  {
  }

  /** A code issued at `t` is accepted exactly before `t` plus five minutes. */
  lemma IssuedCodeAccepted(r: Record, ds: seq<nat>, t: int, now: int)
    requires Draws(ds)
    ensures var (stored, code) := Generate(r, ds, t);
      Validate(stored, code, now) == Success(now < t + Lifetime)
  {
  }

  /** Any other input is refused, whatever the time. */
  lemma OtherCodeRejected(r: Record, ds: seq<nat>, t: int, input: string, now: int)
    requires Draws(ds) && input != Generate(r, ds, t).1
    ensures Validate(Generate(r, ds, t).0, input, now) == Success(false)
  {
  }

  /** Issuing again replaces the code and the expiry: only the new code, under the new expiry, is accepted. */
  lemma ReissueReplaces(r: Record, ds: seq<nat>, t: int, es: seq<nat>, u: int, input: string, now: int)
    requires Draws(ds) && Draws(es)
    ensures var second := Generate(Generate(r, ds, t).0, es, u);
      Validate(second.0, input, now) == Success(input == second.1 && now < u + Lifetime)
  {
  }

  /** The first code stops working after a reissue unless the new draws are the same. */
  lemma OldCodeRevoked(r: Record, ds: seq<nat>, t: int, es: seq<nat>, u: int, now: int)
    requires Draws(ds) && Draws(es) && ds != es
    ensures Validate(Generate(Generate(r, ds, t).0, es, u).0, CodeOf(ds), now) == Success(false)
  {
    if CodeOf(ds) == CodeOf(es) {
      CodeOfInjective(ds, es);
    }
  }
}
