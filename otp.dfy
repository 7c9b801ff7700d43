/** The one-time-password screen: four one-character slots, a countdown
    before a new code may be requested, and the verify and resend actions. */
module Otp {

  /** The code the screen accepts. */
  const Code: string := "1234"

  const SlotCount: nat := 4

  /** Seconds to wait before a new code may be requested. */
  const ResendDelay: int := 120

  /** The screen's state: the slot contents, the seconds left and whether the
      resend link is disabled. */
  datatype OtpState = OtpState(slots: seq<string>, timer: int, resendDisabled: bool)

  /** The toast a submit or a resend shows. */
  datatype Toast = Verified | Incorrect | InvalidLength | CodeSent

  function EmptySlots(): (r: seq<string>)
    ensures |r| == SlotCount && forall i :: 0 <= i < |r| ==> r[i] == ""
  {
    ["", "", "", ""]
  }

  /** The state the screen mounts with. */
  function Initial(): OtpState
  {
    OtpState(EmptySlots(), ResendDelay, true)
  }

  /** The states the screen can be in: four slots, a timer between 0 and 120,
      and the resend link disabled exactly while the timer runs. */
  predicate Valid(s: OtpState)
  {
    |s.slots| == SlotCount && 0 <= s.timer <= ResendDelay && (s.resendDisabled <==> s.timer > 0)
  }

  /** Every slot holds at most one character (the inputs have `maxLength` 1). */
  predicate ShortSlots(slots: seq<string>)
  {
    forall i :: 0 <= i < |slots| ==> |slots[i]| <= 1
  }

  /** What the countdown effect does when it runs: with time left and resend
      disabled it starts the interval (nothing changes yet); at zero it
      enables resend. */
  function Settle(s: OtpState): (r: OtpState)
    ensures r.slots == s.slots && r.timer == s.timer
    ensures r.timer == 0 ==> !r.resendDisabled
    ensures r.timer != 0 ==> r.resendDisabled == s.resendDisabled
  {
    if s.timer > 0 && s.resendDisabled then s
    else if s.timer == 0 then s.(resendDisabled := false)
    else s
  }

  /** One second: the running interval decrements the timer, then the effect
      runs again on the new value. Without a running interval nothing happens. */
  function NextSecond(s: OtpState): (r: OtpState)
    ensures r.slots == s.slots && r.timer <= s.timer
    ensures Valid(s) ==> Valid(r)
  {
    if s.timer > 0 && s.resendDisabled then Settle(s.(timer := s.timer - 1)) else s
  }

  /** `n` seconds. */
  function AfterSeconds(s: OtpState, n: nat): OtpState
    decreases n
  {
    if n == 0 then s else AfterSeconds(NextSecond(s), n - 1)
  }

  /** `handleOtpChange(value, index)`: a copy of the slots with slot `index` replaced. */
  function EditSlot(s: OtpState, value: string, index: nat): (r: OtpState)
    requires index < |s.slots|
    ensures |r.slots| == |s.slots| && r.slots[index] == value
    ensures forall i :: 0 <= i < |s.slots| && i != index ==> r.slots[i] == s.slots[i]
    ensures r.timer == s.timer && r.resendDisabled == s.resendDisabled
  {
    s.(slots := s.slots[index := value])
  }

  /** `otp.join('')`. */
  function Joined(slots: seq<string>): (r: string)
    ensures r == "" <==> forall i :: 0 <= i < |slots| ==> slots[i] == ""
  {
    if slots == [] then "" else slots[0] + Joined(slots[1..])
  }

  /** The toast `handleSubmit` shows. */
  function SubmitToast(s: OtpState): (t: Toast)
    ensures t == Verified <==> Joined(s.slots) == Code
    ensures t == InvalidLength <==> |Joined(s.slots)| != 4
    ensures t != CodeSent
  {
    var entered := Joined(s.slots);
    if |entered| == 4 then (if entered == Code then Verified else Incorrect)
    else InvalidLength
  }

  /** The state after `handleSubmit`: a wrong four-character code clears the slots. */
  function Submitted(s: OtpState): (r: OtpState)
    ensures r.timer == s.timer && r.resendDisabled == s.resendDisabled
    ensures r.slots == s.slots || r.slots == EmptySlots()
    ensures Valid(s) ==> Valid(r)
  {
    if SubmitToast(s) == Incorrect then s.(slots := EmptySlots()) else s
  }

  /** The state after `handleResendOtp`. */
  function Resent(s: OtpState): (r: OtpState)
    ensures Valid(r) && r.timer == ResendDelay && r.resendDisabled
    ensures forall i :: 0 <= i < |r.slots| ==> r.slots[i] == ""
  {
    OtpState(EmptySlots(), ResendDelay, true)
  }

  // -------------------------------------------------------------- lemmas

  /** The screen starts with four empty slots, timer 120 and resend disabled,
      which is a valid state. */
  lemma InitialState()
    ensures Valid(Initial())
    ensures forall i :: 0 <= i < |Initial().slots| ==> Initial().slots[i] == ""
    ensures Initial().timer == 120 && Initial().resendDisabled
  {
  }

  /** A tick keeps the state valid; while resend is disabled it takes exactly
      one second off the timer, otherwise it changes nothing. */
  lemma TickStep(s: OtpState)
    requires Valid(s)
    ensures Valid(NextSecond(s)) && NextSecond(s).slots == s.slots
    ensures s.resendDisabled ==> NextSecond(s).timer == s.timer - 1
    ensures !s.resendDisabled ==> NextSecond(s) == s
  {
  }

  /** After `n` seconds the timer shows what is left of it, never below 0, and
      resend is enabled exactly when it has run out. */
  lemma {:induction false} TicksCountDown(s: OtpState, n: nat)
    requires Valid(s)
    ensures Valid(AfterSeconds(s, n)) && AfterSeconds(s, n).slots == s.slots
    ensures AfterSeconds(s, n).timer == if s.timer >= n then s.timer - n else 0
    ensures AfterSeconds(s, n).resendDisabled <==> s.timer > n
    decreases n
  {
    if n > 0 {
      TickStep(s);
      TicksCountDown(NextSecond(s), n - 1);
    }
  }

  /** From a fresh screen, or right after a resend, resend becomes enabled
      after exactly 120 seconds. */
  lemma ResendEnabledAfterDelay(s: OtpState, n: nat)
    requires s == Initial() || exists p :: s == Resent(p)
    ensures !AfterSeconds(s, n).resendDisabled <==> n >= 120
  {
    TicksCountDown(s, n);
  }

  /** An edit keeps the state valid, and typing single characters keeps every
      slot at most one character long. */
  lemma EditKeepsValid(s: OtpState, value: string, index: nat)
    requires Valid(s) && index < |s.slots|
    ensures Valid(EditSlot(s, value, index))
    ensures ShortSlots(s.slots) && |value| <= 1 ==> ShortSlots(EditSlot(s, value, index).slots)
  {
  }

  /** With slots of at most one character, the joined code has four characters
      exactly when all four slots are filled. */
  lemma FullIffFilled(slots: seq<string>)
    requires |slots| == SlotCount && ShortSlots(slots)
    ensures |Joined(slots)| == 4 <==> forall i :: 0 <= i < |slots| ==> slots[i] != ""
  {
    JoinedLength(slots);
  }

  /** The joined length is at most the number of slots and reaches it exactly
      when every slot is filled. */
  lemma {:induction false} JoinedLength(slots: seq<string>)
    requires ShortSlots(slots)
    ensures |Joined(slots)| <= |slots|
    ensures |Joined(slots)| == |slots| <==> forall i :: 0 <= i < |slots| ==> slots[i] != ""
  {
    if slots != [] {
      assert ShortSlots(slots[1..]) by {
        forall i | 0 <= i < |slots[1..]| ensures |slots[1..][i]| <= 1 {
          assert slots[1..][i] == slots[i + 1];
        }
      }
      JoinedLength(slots[1..]);
      if forall i :: 0 <= i < |slots[1..]| ==> slots[1..][i] != "" {
        assert forall i :: 1 <= i < |slots| ==> slots[i] == slots[1..][i - 1];
      } else {
        var k :| 0 <= k < |slots[1..]| && slots[1..][k] == "";
        assert slots[k + 1] == "";
      }
    }
  }

  /** Submit: a code of another length reports invalid input and leaves the
      slots alone; "1234" succeeds and leaves them; any other four-character
      code fails and clears all four; the timer and resend flag never change. */
  lemma SubmitOutcome(s: OtpState)
    requires Valid(s)
    ensures Valid(Submitted(s))
    ensures Submitted(s).timer == s.timer && Submitted(s).resendDisabled == s.resendDisabled
    ensures |Joined(s.slots)| != 4 ==> SubmitToast(s) == InvalidLength && Submitted(s) == s
    ensures Joined(s.slots) == Code ==> SubmitToast(s) == Verified && Submitted(s) == s
    ensures |Joined(s.slots)| == 4 && Joined(s.slots) != Code ==>
              SubmitToast(s) == Incorrect && Submitted(s).slots == EmptySlots()
  {
  }

  /** Typing the digits 1, 2, 3, 4 into the four slots of a fresh screen verifies. */
  lemma CorrectCodeVerifies()
    ensures var s := EditSlot(EditSlot(EditSlot(EditSlot(Initial(), "1", 0), "2", 1), "3", 2), "4", 3);
            SubmitToast(s) == Verified && Submitted(s) == s
  {
    var s := EditSlot(EditSlot(EditSlot(EditSlot(Initial(), "1", 0), "2", 1), "3", 2), "4", 3);
    assert s.slots == ["1", "2", "3", "4"];
    JoinedFour("1", "2", "3", "4");
  }

  lemma JoinedFour(a: string, b: string, c: string, d: string)
    ensures Joined([a, b, c, d]) == a + b + c + d
  {
    assert [a, b, c, d][1..] == [b, c, d] && [b, c, d][1..] == [c, d] && [c, d][1..] == [d];
    assert Joined([d]) == d + Joined([]) == d;
    assert Joined([c, d]) == c + d;
    assert Joined([b, c, d]) == b + (c + d);
  }

  /** Resend gives four empty slots, timer 120 and resend disabled whatever
      the state before. */
  lemma ResendResets(s: OtpState, t: OtpState)
    ensures Resent(s) == Resent(t) == Initial()
    ensures Valid(Resent(s))
  {
  }

  // -------------------------------------------------------------- screen

  /** The screen's state variables. */
  class OtpScreen {
    var otp: seq<string>
    var timer: int
    var isResendDisabled: bool

    function State(): OtpState
      reads this
    {
      OtpState(otp, timer, isResendDisabled)
    }

    constructor ()
      ensures State() == Initial()
    {
      otp := ["", "", "", ""];
      timer := 120;
      isResendDisabled := true;
    }

    /** One second of the countdown interval, followed by the effect re-run. */
    method Tick()
      modifies this
      ensures State() == NextSecond(old(State()))
    {
      if timer > 0 && isResendDisabled {
        timer := timer - 1;
        if timer == 0 {
          isResendDisabled := false;
        }
      }
    }

    /** `handleOtpChange`: copy the slots and write one of them. */
    method ChangeDigit(value: string, index: nat)
      requires index < |otp|
      modifies this
      ensures State() == EditSlot(old(State()), value, index)
    {
      var newOtp := otp;
      newOtp := newOtp[index := value];
      otp := newOtp;
    }

    /** `handleSubmit`. */
    method Submit() returns (toast: Toast)
      modifies this
      ensures toast == SubmitToast(old(State()))
      ensures State() == Submitted(old(State()))
    {
      var entered := Joined(otp);
      if |entered| == 4 {
        if entered == Code {
          toast := Verified;
        } else {
          toast := Incorrect;
          otp := ["", "", "", ""];
        }
      } else {
        toast := InvalidLength;
      }
    }

    /** `handleResendOtp`. */
    method Resend() returns (toast: Toast)
      modifies this
      ensures toast == CodeSent
      ensures State() == Resent(old(State()))
    {
      otp := ["", "", "", ""];
      timer := 120;
      isResendDisabled := true;
      toast := CodeSent;
    }
  }
}
