/**
 * The state behind the verification screen
 * (KilimoMobileApp/src/screens/OTPVerificationScreen.tsx): a buffer of six
 * one-digit slots that the text fields and the on-screen keypad edit in
 * place, the resend countdown, and its "mm:ss" display.
 *
 * Focus changes, alerts and rendering are left out; the outcome of the
 * verify and resend requests is a parameter.
 */
module OtpScreen {
  import opened Common
  import opened JsText

  const Slots := 6
  const ResendSeconds := 60

  /** `Array.prototype.join("")` */
  function Join(s: seq<string>): string {
    if |s| == 0 then "" else Join(s[..|s| - 1]) + s[|s| - 1]
  }

  lemma JoinSnoc(a: seq<string>, x: string)
    ensures Join(a + [x]) == Join(a) + x
  {
    assert (a + [x])[..|a|] == a;
  }

  /** Every slot holds at most one character, as the one-character text fields ensure. */
  predicate SingleChars(s: seq<string>) {
    forall j :: 0 <= j < |s| ==> |s[j]| <= 1
  }

  /** The number of non-empty slots. */
  function Filled(s: seq<string>): (r: nat)
    ensures r <= |s|
    ensures r == |s| <==> forall j :: 0 <= j < |s| ==> s[j] != ""
  {
    if |s| == 0 then 0
    else
      var rest := Filled(s[..|s| - 1]);
      assert forall j :: 0 <= j < |s| - 1 ==> s[..|s| - 1][j] == s[j];
      rest + (if s[|s| - 1] != "" then 1 else 0)
  }

  /** With one character per slot, the joined code is as long as the number of filled slots. */
  lemma {:induction false} JoinLength(s: seq<string>)
    requires SingleChars(s)
    ensures |Join(s)| == Filled(s)
  {
    if |s| > 0 {
      assert SingleChars(s[..|s| - 1]) by {
        assert forall j :: 0 <= j < |s| - 1 ==> s[..|s| - 1][j] == s[j];
      }
      JoinLength(s[..|s| - 1]);
    }
  }

  /**
   * The length check of `handleVerify` and the enabling condition of the
   * verify button agree while every slot holds at most one character.
   */
  lemma LengthCheckIsAllFilled(s: seq<string>)
    requires |s| == Slots && SingleChars(s)
    ensures |Join(s)| == Slots <==> forall j :: 0 <= j < |s| ==> s[j] != ""
  {
    JoinLength(s);
  }

  /** Without that, they do not: a two-digit slot lets an incomplete buffer pass the length check. */
  lemma LengthCheckNeedsSingleChars()
    ensures var s := ["12", "3", "4", "5", "6", ""];
      |Join(s)| == Slots && s[5] == ""
  {
    var s := ["12", "3", "4", "5", "6", ""];
    var a0: seq<string> := [];
    JoinSnoc(a0, "12");
    JoinSnoc(a0 + ["12"], "3");
    JoinSnoc(a0 + ["12"] + ["3"], "4");
    JoinSnoc(a0 + ["12"] + ["3"] + ["4"], "5");
    JoinSnoc(a0 + ["12"] + ["3"] + ["4"] + ["5"], "6");
    JoinSnoc(a0 + ["12"] + ["3"] + ["4"] + ["5"] + ["6"], "");
    assert s == a0 + ["12"] + ["3"] + ["4"] + ["5"] + ["6"] + [""];
  }

  /** `findIndex(digit => digit === "")` */
  function FirstEmpty(s: seq<string>): (r: Option<nat>)
    ensures r.None? <==> forall j :: 0 <= j < |s| ==> s[j] != ""
    ensures r.Some? ==> r.value < |s| && s[r.value] == "" && forall j :: 0 <= j < r.value ==> s[j] != ""
  {
    if |s| == 0 then None
    else if s[0] == "" then Some(0)
    else match FirstEmpty(s[1..])
      case None => None
      case Some(k) => Some(k + 1)
  }

  /** The index `map`, `filter` and `pop` find in `handleDelete`: the last non-empty slot. */
  function LastFilled(s: seq<string>): (r: Option<nat>)
    ensures r.None? <==> forall j :: 0 <= j < |s| ==> s[j] == ""
    ensures r.Some? ==> r.value < |s| && s[r.value] != "" && forall j :: r.value < j < |s| ==> s[j] == ""
  {
    if |s| == 0 then None
    else if s[|s| - 1] != "" then Some(|s| - 1)
    else LastFilled(s[..|s| - 1])
  }

  /** The slots after `handleChangeText(text, index)`: text that is not all digits is ignored. */
  function ChangeSlot(s: seq<string>, text: string, index: nat): (r: seq<string>)
    requires index < |s|
    ensures text != "" && !AllDigits(text) ==> r == s
    ensures text == "" || AllDigits(text) ==> |r| == |s| && r[index] == text
    ensures forall j :: 0 <= j < |s| && j != index ==> r[j] == s[j]
  {
    if text != "" && !AllDigits(text) then s else s[index := text]
  }

  /** The keypad fills slots left to right and the delete key empties them right to left. */
  lemma PressThenDelete(s: seq<string>, digit: char)
    requires IsDigit(digit) && FirstEmpty(s).Some?
    requires forall j :: FirstEmpty(s).value < j < |s| ==> s[j] == ""
    ensures var t := ChangeSlot(s, [digit], FirstEmpty(s).value);
      LastFilled(t) == FirstEmpty(s) && t[FirstEmpty(s).value := ""] == s
  {
    var k := FirstEmpty(s).value;
    assert AllDigits([digit]);
    assert ChangeSlot(s, [digit], k) == s[k := [digit]];
    FillThenClear(s, k, [digit]);
  }

  /** Filling the first empty slot, with only empty slots after it, makes it the last filled one. */
  lemma FillThenClear(s: seq<string>, k: nat, x: string)
    requires k < |s| && s[k] == "" && x != ""
    requires forall j :: k < j < |s| ==> s[j] == ""
    ensures LastFilled(s[k := x]) == Some(k) && s[k := x][k := ""] == s
  {
    var t := s[k := x];
    assert forall j :: k < j < |t| ==> t[j] == "";
    assert t[k] != "";
    var r := LastFilled(t);
    assert r.Some? && r.value == k;
  }

  /** The countdown: the seconds left and whether the interval is still running. */
  datatype Countdown = Countdown(timer: int, ticking: bool)

  /** One interval callback: count down, stopping the interval at the last second. */
  function Tick(c: Countdown): (r: Countdown)
    ensures !c.ticking ==> r == c
    ensures c.ticking && c.timer > 1 ==> r == Countdown(c.timer - 1, true)
    ensures c.ticking && c.timer <= 1 ==> r == Countdown(0, false)
    ensures c.timer >= 0 ==> 0 <= r.timer <= c.timer
  {
    if !c.ticking then c
    else if c.timer <= 1 then Countdown(0, false)
    else Countdown(c.timer - 1, true)
  }

  function Ticks(c: Countdown, n: nat): Countdown
    decreases n
  {
    if n == 0 then c else Ticks(Tick(c), n - 1)
  }

  /** The resend link is shown, instead of the countdown, once the timer reaches 0. */
  predicate ResendVisible(c: Countdown) {
    c.timer <= 0
  }

  /** The countdown is running exactly while there are seconds left. */
  predicate CountdownValid(c: Countdown) {
    0 <= c.timer <= ResendSeconds && (c.ticking <==> c.timer > 0)
  }

  lemma TickValid(c: Countdown)
    requires CountdownValid(c)
    ensures CountdownValid(Tick(c))
  {
  }

  /** A running countdown reaches 0, and shows the resend link, after exactly as many ticks as it has seconds. */
  lemma {:induction false} RunsOut(t: int)
    requires t >= 1
    ensures Ticks(Countdown(t, true), t) == Countdown(0, false)
    ensures forall n :: 0 <= n < t ==> !ResendVisible(Ticks(Countdown(t, true), n))
    decreases t
  {
    if t > 1 {
      RunsOut(t - 1);
      forall n | 0 < n < t
        ensures Ticks(Countdown(t, true), n) == Ticks(Countdown(t - 1, true), n - 1)
      {
      }
    }
  }

  /** A stopped countdown never moves again. */
  lemma {:induction false} StoppedStaysPut(c: Countdown, n: nat)
    requires !c.ticking
    ensures Ticks(c, n) == c
  {
    if n > 0 {
      StoppedStaysPut(c, n - 1);
    }
  }

  /** `handleResendCode` after a successful resend, as written: the timer is set back to 60 but the interval is not restarted. */
  function ResendAsWritten(c: Countdown): (r: Countdown)
    ensures r.timer == ResendSeconds && r.ticking == c.ticking
  {
    c.(timer := ResendSeconds)
  }

  /** The resend as evidently intended: the countdown starts over. */
  function Resend(c: Countdown): (r: Countdown)
    ensures r == Countdown(ResendSeconds, true) && CountdownValid(r)
  {
    Countdown(ResendSeconds, true)
  }

  /**
   * As written, the resend link is only reachable once the interval has
   * stopped, and a resend from there freezes the timer at 60: the link
   * never appears again however long the user waits.
   */
  lemma ResendFreezesTimer(c: Countdown, n: nat)
    requires CountdownValid(c) && ResendVisible(c)
    ensures !CountdownValid(ResendAsWritten(c))
    ensures Ticks(ResendAsWritten(c), n) == Countdown(ResendSeconds, false)
    ensures !ResendVisible(Ticks(ResendAsWritten(c), n))
  {
    StoppedStaysPut(ResendAsWritten(c), n);
  }

  /** With the intended resend the link is back after another 60 ticks. */
  lemma ResendRestartsCountdown(c: Countdown)
    ensures ResendVisible(Ticks(Resend(c), ResendSeconds))
  {
    RunsOut(ResendSeconds);
  }

  /** The decimal digits of `n` (`toString` on a non-negative integer). */
  function Decimal(n: nat): (r: string)
    ensures 1 <= |r| && AllDigits(r)
    ensures n < 10 <==> |r| == 1
    decreases n
  {
    if n < 10 then [(48 + n) as char] else Decimal(n / 10) + [(48 + n % 10) as char]
  }

  /** The number a string of decimal digits denotes. */
  function Value(s: string): nat {
    if |s| == 0 then 0 else 10 * Value(s[..|s| - 1]) + (if IsDigit(s[|s| - 1]) then s[|s| - 1] as int - 48 else 0)
  }

  lemma {:induction false} ValueDecimal(n: nat)
    ensures Value(Decimal(n)) == n
    decreases n
  {
    if n >= 10 {
      ValueDecimal(n / 10);
      var d := Decimal(n / 10) + [(48 + n % 10) as char];
      assert d[..|d| - 1] == Decimal(n / 10);
    }
  }

  /** `padStart(2, "0")` */
  function PadStart2(s: string): (r: string)
    ensures |r| == if |s| >= 2 then |s| else 2
  {
    if |s| >= 2 then s else seq(2 - |s|, _ => '0') + s
  }

  lemma {:induction false} LeadingZero(s: string)
    ensures Value(['0'] + s) == Value(s)
    decreases |s|
  {
    if |s| > 0 {
      var z := ['0'] + s;
      assert z[..|z| - 1] == ['0'] + s[..|s| - 1];
      LeadingZero(s[..|s| - 1]);
    }
  }

  lemma PadStartValue(s: string)
    ensures Value(PadStart2(s)) == Value(s)
  {
    if |s| == 1 {
      assert PadStart2(s) == ['0'] + s;
      LeadingZero(s);
    } else if |s| == 0 {
      assert PadStart2(s) == "00";
      assert "00"[..1] == "0" && "0"[..0] == "";
    }
  }

  /** `formatTime(seconds)`: zero-padded minutes, ":", zero-padded seconds. */
  function FormatTime(seconds: nat): (r: string)
    ensures |r| >= 5 && r[|r| - 3] == ':'
    ensures seconds < 6000 ==> |r| == 5
  {
    PadStart2(Decimal(seconds / 60)) + ":" + PadStart2(Decimal(seconds % 60))
  }

  /**
   * The display reads back as the time it shows: the last three characters
   * are ":" and two digits of the seconds below a minute, and what comes
   * before them is at least two digits of the minutes.
   */
  lemma FormatTimeReadsBack(seconds: nat)
    ensures var r := FormatTime(seconds);
      && |r| >= 5 && r[|r| - 3] == ':'
      && Value(r[|r| - 2..]) < 60
      && 60 * Value(r[..|r| - 3]) + Value(r[|r| - 2..]) == seconds
  {
    var mins, secs := seconds / 60, seconds % 60;
    var m := PadStart2(Decimal(mins));
    var s := PadStart2(Decimal(secs));
    assert |s| == 2 by {
      if secs >= 10 {
        assert Decimal(secs) == Decimal(secs / 10) + [(48 + secs % 10) as char];
      }
    }
    assert FormatTime(seconds) == m + ":" + s;
    SplitAtColon(m, s);
    assert Value(m) == mins by {
      PadStartValue(Decimal(mins));
      ValueDecimal(mins);
    }
    assert Value(s) == secs by {
      PadStartValue(Decimal(secs));
      ValueDecimal(secs);
    }
    assert 60 * mins + secs == seconds;
  }

  /** The parts on either side of the colon come back out of the display. */
  lemma SplitAtColon(m: string, s: string)
    requires |s| == 2
    ensures var r := m + ":" + s; r[..|r| - 3] == m && r[|r| - 2..] == s
  {
  }

  /** What the user sees for the screen's own range of timer values. */
  lemma FormatTimeExamples()
    ensures FormatTime(60) == "01:00"
    ensures FormatTime(9) == "00:09"
  {
    assert Decimal(1) == "1" && Decimal(0) == "0" && Decimal(9) == "9";
  }

  class OtpEntry {
    var slots: array<string>
    var timer: int
    var ticking: bool
    var isVerifying: bool

    function Clock(): Countdown
      reads this
    {
      Countdown(timer, ticking)
    }

    ghost predicate Valid()
      reads this, slots
    {
      slots.Length == Slots && SingleChars(slots[..]) && CountdownValid(Clock())
    }

    /** The screen on mount: six empty slots and a running 60-second countdown. */
    constructor ()
      ensures fresh(slots) && slots[..] == seq(Slots, _ => "")
      ensures Clock() == Countdown(ResendSeconds, true) && !isVerifying
      ensures Valid()
    {
      slots := new string[Slots](_ => "");
      timer := ResendSeconds;
      ticking := true;
      isVerifying := false;
    }

    /** `handleChangeText(text, index)`: writes one slot, unless the text is not all digits. */
    method ChangeText(text: string, index: nat)
      requires index < slots.Length
      modifies slots
      ensures slots[..] == ChangeSlot(old(slots[..]), text, index)
      ensures old(Valid()) && |text| <= 1 ==> Valid()
    {
      if text != "" && !AllDigits(text) {
        return;
      }
      slots[index] := text;
    }

    /** `handleNumberPress(num)`: the digit goes into the first empty slot; with none, nothing happens. */
    method NumberPress(num: string)
      modifies slots
      ensures FirstEmpty(old(slots[..])).None? ==> slots[..] == old(slots[..])
      ensures FirstEmpty(old(slots[..])).Some? ==>
                slots[..] == ChangeSlot(old(slots[..]), num, FirstEmpty(old(slots[..])).value)
      ensures old(Valid()) && |num| <= 1 ==> Valid()
    {
      var i := 0;
      while i < slots.Length && slots[i] != ""
        invariant 0 <= i <= slots.Length
        invariant forall j :: 0 <= j < i ==> slots[j] != ""
      {
        i := i + 1;
      }
      if i < slots.Length {
        ChangeText(num, i);
      }
    }

    /** `handleDelete`: the last filled slot is emptied; with none, nothing happens. */
    method Delete()
      modifies slots
      ensures LastFilled(old(slots[..])).None? ==> slots[..] == old(slots[..])
      ensures LastFilled(old(slots[..])).Some? ==> slots[..] == old(slots[..])[LastFilled(old(slots[..])).value := ""]
      ensures old(Valid()) ==> Valid()
    {
      var i := slots.Length;
      while i > 0 && slots[i - 1] == ""
        invariant 0 <= i <= slots.Length
        invariant forall j :: i <= j < slots.Length ==> slots[j] == ""
      {
        i := i - 1;
      }
      if i > 0 {
        slots[i - 1] := "";
      }
    }

    /** The joined code, built slot by slot. */
    method Code() returns (code: string)
      ensures code == Join(slots[..])
    {
      code := "";
      for i := 0 to slots.Length
        invariant code == Join(slots[..i])
      {
        assert slots[..i + 1][..i] == slots[..i];
        code := code + slots[i];
      }
      assert slots[..slots.Length] == slots[..];
    }

    /** Whether the verify button is enabled: every slot filled and no verification under way. */
    predicate ButtonEnabled()
      reads this, slots
    {
      (forall j :: 0 <= j < slots.Length ==> slots[j] != "") && !isVerifying
    }

    /**
     * The start of `handleVerify`: a joined code of any length but six is
     * refused and changes nothing; otherwise the code is sent and the
     * verification is under way.
     */
    method BeginVerify() returns (code: Option<string>)
      modifies this
      ensures slots == old(slots) && Clock() == old(Clock())
      ensures |Join(slots[..])| != Slots ==> code.None? && isVerifying == old(isVerifying)
      ensures |Join(slots[..])| == Slots ==> code == Some(Join(slots[..])) && isVerifying
      ensures Valid() ==> (code.Some? <==> forall j :: 0 <= j < slots.Length ==> slots[j] != "")
    {
      if Valid() {
        LengthCheckIsAllFilled(slots[..]);
      }
      var otpCode := Code();
      if |otpCode| != Slots {
        return None;
      }
      isVerifying := true;
      code := Some(otpCode);
    }

    /** The end of `handleVerify`: a request that threw empties all six slots. */
    method EndVerify(threw: bool)
      modifies this
      ensures !isVerifying && Clock() == old(Clock())
      ensures threw ==> fresh(slots) && slots[..] == seq(Slots, _ => "")
      ensures !threw ==> slots == old(slots)
      ensures old(Valid()) ==> Valid()
    {
      if threw {
        slots := new string[Slots](_ => "");
      }
      isVerifying := false;
    }

    /** One interval callback. */
    method OnTick()
      modifies this
      ensures Clock() == Tick(old(Clock())) && slots == old(slots) && isVerifying == old(isVerifying)
      ensures old(Valid()) ==> Valid()
    {
      if !ticking {
        return;
      }
      if timer <= 1 {
        ticking := false;
        timer := 0;
      } else {
        timer := timer - 1;
      }
    }

    /**
     * `handleResendCode` after the request: on success all six slots are
     * emptied and the countdown starts over (the intended resend; see
     * `ResendAsWritten`); otherwise nothing changes.
     */
    method ResendCode(success: bool)
      modifies this
      ensures success ==> fresh(slots) && slots[..] == seq(Slots, _ => "") && Clock() == Resend(old(Clock()))
      ensures !success ==> slots == old(slots) && Clock() == old(Clock())
      ensures isVerifying == old(isVerifying)
      ensures old(Valid()) ==> Valid()
    {
      if success {
        timer := ResendSeconds;
        ticking := true;
        slots := new string[Slots](_ => "");
      }
    }
  }
}
