/**
 * The `m:ss` countdown display and its reading back: whole minutes, a colon, and
 * whole seconds padded to two digits.
 */
module ClockDisplay {
  import opened Optional
  import opened Strings

  function Clock(mins: string, secs: string): string {
    mins + ":" + secs
  }

  /** Reads an `m:ss` display back as a number of seconds. */
  function ParseClock(t: string): Option<nat> {
    match FirstIndexOf(t, ':')
    case None => None
    case Some(i) => ClockValue(t[..i], t[i + 1..])
  }

  /** The seconds shown by minutes `m` and seconds `ss`, when they are well formed. */
  function ClockValue(m: string, ss: string): Option<nat> {
    if 0 < |m| && AllDigits(m) && |ss| == 2 && AllDigits(ss) && ParseNat(ss) < 60
    then Some(ParseNat(m) * 60 + ParseNat(ss))
    else None
  }

  /** Two decimal digits of a number below 60, with a leading zero below 10, read back as the number. */
  lemma PaddedSeconds(r: nat)
    requires r < 60
    ensures |PadStart(NatToString(r), 2, '0')| == 2
    ensures AllDigits(PadStart(NatToString(r), 2, '0'))
    ensures ParseNat(PadStart(NatToString(r), 2, '0')) == r
  {
    var ss := PadStart(NatToString(r), 2, '0');
    if r < 10 {
      assert ss == ['0', DigitChar(r)];
      assert ss[..1] == ['0'];
      assert ss[..1][..0] == [];
      assert DigitValue('0') == 0 && DigitValue(DigitChar(r)) == r;
      assert ParseNat(ss[..1]) == 0;
    } else {
      assert |NatToString(r / 10)| == 1;
      assert ss == NatToString(r);
      ParseNatToString(r);
    }
  }

  lemma {:induction false} ColonAfterDigits(m: string, rest: string)
    requires AllDigits(m)
    ensures FirstIndexOf(m + ([':'] + rest), ':') == Some(|m|)
    decreases |m|
  {
    var t := m + ([':'] + rest);
    if |m| > 0 {
      assert IsDigit(m[0]) && t[0] == m[0];
      assert t[1..] == m[1..] + ([':'] + rest);
      ColonAfterDigits(m[1..], rest);
    }
  }

  /** Minutes, a colon and two digits under 60 read back as `60 * minutes + seconds`. */
  lemma ParseClockParts(m: string, ss: string, n: nat)
    requires 0 < |m| && AllDigits(m)
    requires |ss| == 2 && AllDigits(ss) && ParseNat(ss) < 60
    requires n == ParseNat(m) * 60 + ParseNat(ss)
    ensures ParseClock(Clock(m, ss)) == Some(n)
  {
    var t := Clock(m, ss);
    assert t == m + ([':'] + ss);
    ColonAfterDigits(m, ss);
    assert t[..|m|] == m;
    assert t[|m| + 1..] == ss;
    assert ParseClock(t) == ClockValue(m, ss);
    ClockValueOf(m, ss, n);
  }

  lemma ClockValueOf(m: string, ss: string, n: nat)
    requires 0 < |m| && AllDigits(m)
    requires |ss| == 2 && AllDigits(ss) && ParseNat(ss) < 60
    requires n == ParseNat(m) * 60 + ParseNat(ss)
    ensures ClockValue(m, ss) == Some(n)
  {
  }

  /** The display of `q` minutes and `r` seconds reads back as their total `n`. */
  lemma ParseClockOf(q: nat, r: nat, n: nat)
    requires r < 60 && n == q * 60 + r
    ensures ParseClock(Clock(NatToString(q), PadStart(NatToString(r), 2, '0'))) == Some(n)
  {
    PaddedSeconds(r);
    ParseNatToString(q);
    ParseClockParts(NatToString(q), PadStart(NatToString(r), 2, '0'), n);
  }
}
