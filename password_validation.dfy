/** The password-reset validation screen: a six-slot one-time code, a
    new password, and a five-minute countdown that gates "resend the code".
    The countdown is modelled as the state the interval callback updates;
    the one-second scheduling itself is not modelled. */
module PasswordValidation {
  import opened Text
  import opened Wrappers

  const OtpLength := 6
  const ResendDelay := 300
  const NewPasswordMinLength := 6

  /** `otpCode`: `.length(6)` and `/^\d{6}$/`. */
  predicate OtpCodeAccepted(code: string)
  {
    Utf16Length(code) == OtpLength && |code| == 6 && AllDigits(code)
  }

  /** `newPassword`: `.min(6)`. */
  predicate NewPasswordAccepted(password: string)
  {
    Utf16Length(password) >= NewPasswordMinLength
  }

  /** The code is valid exactly when it is six ASCII digits. */
  lemma OtpCodeAcceptedIff(code: string)
    ensures OtpCodeAccepted(code) <==> |code| == 6 && AllDigits(code)
  {
    if |code| == 6 && AllDigits(code) {
      Utf16LengthInBmp(code);
    }
  }

  /** Six characters always make a long enough password; on text without
      astral characters six is also the least. */
  lemma NewPasswordAcceptedLength(password: string)
    ensures |password| >= 6 ==> NewPasswordAccepted(password)
    ensures InBmp(password) ==> (NewPasswordAccepted(password) <==> |password| >= 6)
  {
    if InBmp(password) {
      Utf16LengthInBmp(password);
    }
  }

  /** `formatTime`: minutes, a colon, and the seconds on two digits. */
  function FormatTime(seconds: nat): string
  {
    NatToString(seconds / 60) + ":" + PadStart2(NatToString(seconds % 60))
  }

  /** A leading zero does not change a decimal value. */
  lemma {:induction false} DecimalLeadingZero(s: string)
    requires AllDigits(s)
    ensures AllDigits("0" + s) && DecimalValue("0" + s) == DecimalValue(s)
  {
    if s != [] {
      var init := s[..|s| - 1];
      DecimalLeadingZero(init);
      assert ("0" + s)[..|s|] == "0" + init;
    }
  }

  /** `formatTime(s)` reads back as `s`: it is a minute count, a colon and
      two digits worth less than 60, and minutes * 60 + seconds is `s`. */
  lemma FormatTimeParts(seconds: nat) returns (minutes: string, secs: string)
    ensures FormatTime(seconds) == minutes + ":" + secs
    ensures 1 <= |minutes| && AllDigits(minutes) && (minutes[0] == '0' ==> minutes == "0")
    ensures |secs| == 2 && AllDigits(secs)
    ensures DecimalValue(secs) < 60
    ensures DecimalValue(minutes) * 60 + DecimalValue(secs) == seconds
  {
    minutes := NatToString(seconds / 60);
    var raw := NatToString(seconds % 60);
    secs := PadStart2(raw);
    NatToStringBelowHundred(seconds % 60);
    if |raw| == 1 {
      DecimalLeadingZero(raw);
    }
  }

  /** The initial five minutes, and a value with a single-digit second count. */
  lemma FormatTimeExamples()
    ensures FormatTime(300) == "5:00"
    ensures FormatTime(65) == "1:05"
  {
    assert 300 / 60 == 5 && 300 % 60 == 0;
    assert NatToString(5) == "5";
    assert PadStart2(NatToString(0)) == "00";
    assert 65 / 60 == 1 && 65 % 60 == 5;
    assert NatToString(1) == "1";
    assert PadStart2(NatToString(5)) == "05";
  }

  /** The countdown as the interval callback sees it: the seconds left, and
      whether the interval is still scheduled. */
  datatype Countdown = Countdown(timeLeft: nat, running: bool)

  const InitialCountdown := Countdown(ResendDelay, true)

  /** The `setTimeLeft` updater: one second less, never below zero. */
  function Tick(prev: nat): (next: nat)
    ensures next == 0 <==> prev <= 1
    ensures prev > 0 ==> next == prev - 1
    ensures next <= prev
  {
    if prev <= 1 then 0 else prev - 1
  }

  /** One firing of the interval: nothing once it has been cleared; otherwise
      a tick, and the interval is cleared when the previous value was at most 1. */
  function Fire(c: Countdown): Countdown
  {
    if c.running then Countdown(Tick(c.timeLeft), c.timeLeft > 1) else c
  }

  function FireTimes(c: Countdown, n: nat): Countdown
    decreases n
  {
    if n == 0 then c else FireTimes(Fire(c), n - 1)
  }

  /** `handleResendCode` as written: `timeLeft` goes back to 300 but the
      interval, cleared when the countdown reached zero, is not scheduled again. */
  function ResendAsWritten(c: Countdown): Countdown
  {
    if c.timeLeft > 0 then c else Countdown(ResendDelay, c.running)
  }

  /** `handleResendCode` as intended: a fresh five-minute countdown. */
  function Resend(c: Countdown): (r: Countdown)
    ensures c.timeLeft > 0 ==> r == c
    ensures c.timeLeft == 0 ==> r == InitialCountdown
  {
    if c.timeLeft > 0 then c else Countdown(ResendDelay, true)
  }

  /** The interval is scheduled exactly while time is left. */
  predicate Consistent(c: Countdown) { c.running <==> c.timeLeft > 0 }

  lemma FireKeepsConsistent(c: Countdown)
    requires Consistent(c)
    ensures Consistent(Fire(c))
    ensures Fire(c).timeLeft == Tick(c.timeLeft)
  {
  }

  lemma ResendKeepsConsistent(c: Countdown)
    requires Consistent(c)
    ensures Consistent(Resend(c))
  {
  }

  /** A running countdown from k reaches k - n after n firings, and stays at 0. */
  lemma {:induction false} FireTimesCountsDown(k: nat, n: nat)
    ensures FireTimes(Countdown(k, k > 0), n) ==
      if n < k then Countdown(k - n, true) else Countdown(0, false)
  {
    if n > 0 {
      FireTimesCountsDown(Tick(k), n - 1);
    }
  }

  /** Once the countdown has run out, the resend handler as written sets
      300 seconds that never count down again: resend stays disabled for good. */
  lemma {:induction false} ResendAsWrittenFreezes(c: Countdown, n: nat)
    requires Consistent(c) && c.timeLeft == 0
    ensures FireTimes(ResendAsWritten(c), n) == Countdown(ResendDelay, false)
    ensures ResendAsWritten(FireTimes(ResendAsWritten(c), n)) == Countdown(ResendDelay, false)
  {
    if n > 0 {
      ResendAsWrittenFreezes(c, n - 1);
      FireTimesStopped(Countdown(ResendDelay, false), n);
    }
  }

  lemma {:induction false} FireTimesStopped(c: Countdown, n: nat)
    requires !c.running
    ensures FireTimes(c, n) == c
  {
    if n > 0 {
      FireTimesStopped(c, n - 1);
    }
  }

  /** With the intended resend, the new countdown runs out after exactly 300
      firings, and resend becomes available again. */
  lemma ResendRestartsCountdown(c: Countdown)
    requires Consistent(c) && c.timeLeft == 0
    ensures FireTimes(Resend(c), ResendDelay - 1).timeLeft == 1
    ensures FireTimes(Resend(c), ResendDelay) == c
  {
    FireTimesCountsDown(ResendDelay, ResendDelay - 1);
    FireTimesCountsDown(ResendDelay, ResendDelay);
  }

  /** `newOtpInputs.join('')` */
  function Join(slots: seq<string>): string
  {
    if slots == [] then "" else Join(slots[..|slots| - 1]) + slots[|slots| - 1]
  }

  const EmptySlots: seq<string> := ["", "", "", "", "", ""]

  lemma {:induction false} JoinOfEmptySlots(slots: seq<string>)
    requires forall i :: 0 <= i < |slots| ==> slots[i] == ""
    ensures Join(slots) == ""
  {
    if slots != [] {
      JoinOfEmptySlots(slots[..|slots| - 1]);
    }
  }

  /** When every slot holds one digit, the joined code passes the schema. */
  lemma DigitSlotsMakeValidCode(slots: seq<string>)
    requires |slots| == OtpLength
    requires forall i :: 0 <= i < |slots| ==> |slots[i]| == 1 && AllDigits(slots[i])
    ensures OtpCodeAccepted(Join(slots))
  {
    JoinOfDigits(slots);
    OtpCodeAcceptedIff(Join(slots));
  }

  lemma {:induction false} JoinOfDigits(slots: seq<string>)
    requires forall i :: 0 <= i < |slots| ==> |slots[i]| == 1 && AllDigits(slots[i])
    ensures |Join(slots)| == |slots| && AllDigits(Join(slots))
  {
    if slots != [] {
      JoinOfDigits(slots[..|slots| - 1]);
    }
  }

  /** `handleOtpChange` moves the focus to the next slot when a digit was
      kept and the slot is not the last one. */
  function FocusAfterChange(value: string, index: nat): (next: Option<nat>)
    ensures next.Some? <==> KeepDigits(value) != "" && index < OtpLength - 1
    ensures next.Some? ==> next.value == index + 1
  {
    if KeepDigits(value) != "" && index < 5 then Some(index + 1) else None
  }

  class OtpEntry {
    var slots: seq<string>
    var otpCode: string
    var newPassword: string
    var countdown: Countdown

    /** The form's `otpCode` is always the six slots joined, and the
        interval runs exactly while time is left. */
    ghost predicate Valid()
      reads this
    {
      |slots| == OtpLength && otpCode == Join(slots) && Consistent(countdown)
    }

    constructor ()
      ensures Valid()
      ensures slots == EmptySlots && otpCode == "" && newPassword == ""
      ensures countdown == InitialCountdown
    {
      slots := EmptySlots;
      otpCode := "";
      newPassword := "";
      countdown := InitialCountdown;
      JoinOfEmptySlots(EmptySlots);
    }

    /** `handleOtpChange(value, index)`: slot `index` receives the digits of
        `value`, the other slots keep theirs, the form code follows. */
    method ChangeSlot(value: string, index: nat) returns (focus: Option<nat>)
      requires Valid() && index < OtpLength
      modifies this
      ensures Valid()
      ensures slots == old(slots)[index := KeepDigits(value)]
      ensures forall i :: 0 <= i < OtpLength && i != index ==> slots[i] == old(slots[i])
      ensures newPassword == old(newPassword) && countdown == old(countdown)
      ensures focus == FocusAfterChange(value, index)
    {
      var numericValue := KeepDigits(value);
      slots := slots[index := numericValue];
      otpCode := Join(slots);
      focus := if numericValue != "" && index < 5 then Some(index + 1) else None;
    }

    /** `handleOtpKeyPress(key, index)`: Backspace in an empty slot moves the
        focus back one slot, except from the first. Changes nothing. */
    method KeyPress(key: string, index: nat) returns (focus: Option<nat>)
      requires Valid() && index < OtpLength
      ensures focus.Some? <==> key == "Backspace" && slots[index] == "" && index > 0
      ensures focus.Some? ==> focus.value == index - 1
    {
      if key == "Backspace" && slots[index] == "" && index > 0 {
        focus := Some(index - 1);
      } else {
        focus := None;
      }
    }

    /** The password field's `onChange`. */
    method ChangePassword(value: string)
      requires Valid()
      modifies this
      ensures Valid()
      ensures newPassword == value
      ensures slots == old(slots) && otpCode == old(otpCode) && countdown == old(countdown)
    {
      newPassword := value;
    }

    /** One firing of the countdown interval. */
    method TickTimer()
      requires Valid()
      modifies this
      ensures Valid()
      ensures countdown == Fire(old(countdown))
      ensures countdown.timeLeft == Tick(old(countdown.timeLeft))
      ensures slots == old(slots) && otpCode == old(otpCode) && newPassword == old(newPassword)
    {
      FireKeepsConsistent(countdown);
      countdown := Fire(countdown);
    }

    /** `handleResendCode`, with the countdown restarted: nothing while time
        is left; otherwise a new five-minute countdown, all six slots
        emptied and the form code cleared. The focus move and the alert are
        not modelled. */
    method ResendCode() returns (sent: bool)
      requires Valid()
      modifies this
      ensures Valid()
      ensures sent <==> old(countdown.timeLeft) == 0
      ensures countdown == Resend(old(countdown))
      ensures sent ==> slots == EmptySlots && otpCode == "" && countdown.timeLeft == ResendDelay
      ensures !sent ==> slots == old(slots) && otpCode == old(otpCode)
      ensures newPassword == old(newPassword)
    {
      if countdown.timeLeft > 0 {
        sent := false;
        return;
      }
      sent := true;
      countdown := Resend(countdown);
      slots := EmptySlots;
      otpCode := "";
      JoinOfEmptySlots(EmptySlots);
    }
  }
}
