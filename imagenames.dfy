/**
 * The text operations behind the image file names of the animator:
 * Python's `str` of an int, `str.zfill` and the `format` pattern of
 * `write_image`.
 */
module ImageNames {
  import opened Texts

  predicate IsDigit(c: char) {
    '0' <= c <= '9'
  }

  predicate AllDigits(s: string) {
    forall i :: 0 <= i < |s| ==> IsDigit(s[i])
  }

  function DigitChar(d: nat): (c: char)
    requires d < 10
    ensures IsDigit(c)
  {
    "0123456789"[d]
  }

  function DigitValue(c: char): (d: nat)
    requires IsDigit(c)
    ensures d < 10
  {
    c as int - '0' as int
  }

  function Pow10(k: nat): (p: nat)
    ensures p >= 1
  {
    if k == 0 then 1 else 10 * Pow10(k - 1)
  }

  /** Python's `str(n)` for a non-negative int: its decimal digits, no leading zero. */
  function NatToString(n: nat): (s: string)
    ensures |s| >= 1
    ensures AllDigits(s)
    ensures |s| > 1 ==> s[0] != '0'
    decreases n
  {
    if n < 10 then [DigitChar(n)] else NatToString(n / 10) + [DigitChar(n % 10)]
  }

  /** Python's `str(i)` for any int: a minus sign before the digits of |i|. */
  function IntToString(i: int): (s: string)
    ensures |s| >= 1
    ensures (s[0] == '-') <==> i < 0
    ensures i >= 0 ==> AllDigits(s)
  {
    if i < 0 then "-" + NatToString(-i) else NatToString(i)
  }

  /** The value of a string of decimal digits (leading zeros allowed). */
  function ParseNat(s: string): nat
    requires AllDigits(s)
  {
    if s == [] then 0 else 10 * ParseNat(s[..|s| - 1]) + DigitValue(s[|s| - 1])
  }

  /** A run of k zero characters. */
  function Zeros(k: nat): (z: string)
    ensures |z| == k
    ensures forall i :: 0 <= i < k ==> z[i] == '0'
  {
    if k == 0 then "" else "0" + Zeros(k - 1)
  }

  /**
   * Python's `s.zfill(width)`: pad on the left with '0' up to `width`;
   * a leading sign stays in front of the padding; never truncates.
   */
  function ZFill(s: string, width: int): (r: string)
    ensures |r| == if |s| >= width then |s| else width
    ensures |s| >= width ==> r == s
    ensures |s| < width && (|s| == 0 || (s[0] != '+' && s[0] != '-')) ==>
              r[|r| - |s|..] == s && forall i :: 0 <= i < |r| - |s| ==> r[i] == '0'
    ensures |s| < width && |s| > 0 && (s[0] == '+' || s[0] == '-') ==>
              r[0] == s[0] && r[|r| - |s| + 1..] == s[1..] &&
              forall i :: 1 <= i <= |r| - |s| ==> r[i] == '0'
  {
    if |s| >= width then s
    else if |s| > 0 && (s[0] == '+' || s[0] == '-') then [s[0]] + Zeros(width - |s|) + s[1..]
    else Zeros(width - |s|) + s
  }

  /** The zero-padded frame field of an image name. */
  function FrameField(frame: int): string {
    ZFill(IntToString(frame), 4)
  }

  /** `"{}/anim/{}_{}_{}_({}).png".format(path, name, component, str(frame).zfill(4), time)`. */
  function ImageName(path: string, name: string, component: int, frame: int, time: string): string {
    path + "/anim/" + name + "_" + IntToString(component) + "_" + FrameField(frame) + "_(" + time + ").png"
  }

  /** Reading back the digits of `str(n)` gives n. */
  lemma {:induction false} ParseNatToString(n: nat)
    ensures ParseNat(NatToString(n)) == n
    decreases n
  {
    if n >= 10 {
      var s := NatToString(n);
      ParseNatToString(n / 10);
      assert s[..|s| - 1] == NatToString(n / 10);
    }
  }

  /** `str(n)` has at most k digits exactly when n < 10^k. */
  lemma {:induction false} NatToStringLength(n: nat, k: nat)
    requires k >= 1
    ensures |NatToString(n)| <= k <==> n < Pow10(k)
    decreases n
  {
    if n >= 10 {
      if k == 1 {
        assert |NatToString(n)| >= 2;
      } else {
        NatToStringLength(n / 10, k - 1);
        assert Pow10(k) == 10 * Pow10(k - 1);
      }
    } else {
      PowAtLeastTen(k);
    }
  }

  lemma {:induction false} PowAtLeastTen(k: nat)
    requires k >= 1
    ensures Pow10(k) >= 10
    decreases k
  {
    if k > 1 {
      PowAtLeastTen(k - 1);
    }
  }

  /** Leading zeros do not change the value of a digit string. */
  lemma {:induction false} ParseNatLeadingZeros(k: nat, s: string)
    requires AllDigits(s)
    ensures AllDigits(Zeros(k) + s)
    ensures ParseNat(Zeros(k) + s) == ParseNat(s)
    decreases |s|
  {
    var z := Zeros(k) + s;
    assert AllDigits(z) by {
      forall i | 0 <= i < |z| ensures IsDigit(z[i]) {
        if i < k { assert z[i] == Zeros(k)[i]; } else { assert z[i] == s[i - k]; }
      }
    }
    if s == [] {
      assert z == Zeros(k);
      ZerosParseToZero(k);
    } else {
      var init := s[..|s| - 1];
      assert z[..|z| - 1] == Zeros(k) + init;
      ParseNatLeadingZeros(k, init);
    }
  }

  lemma {:induction false} ZerosParseToZero(k: nat)
    ensures AllDigits(Zeros(k)) && ParseNat(Zeros(k)) == 0
    decreases k
  {
    if k > 0 {
      var z := Zeros(k);
      assert z[..k - 1] == Zeros(k - 1);
      ZerosParseToZero(k - 1);
    }
  }

  /** The frame field of a non-negative frame number is all digits and reads back as that number. */
  lemma FrameFieldReadsBack(frame: nat)
    ensures AllDigits(FrameField(frame)) && ParseNat(FrameField(frame)) == frame
  {
    var s := NatToString(frame);
    ParseNatToString(frame);
    if |s| < 4 {
      assert FrameField(frame) == Zeros(4 - |s|) + s;
      ParseNatLeadingZeros(4 - |s|, s);
    }
  }

  /**
   * The frame field is exactly four characters for frames below 10000,
   * and from 10000 on it is `str(frame)` untruncated; either way it ends
   * with `str(frame)`.
   */
  lemma FrameFieldWidth(frame: nat)
    ensures frame < 10000 <==> |FrameField(frame)| == 4
    ensures frame >= 10000 ==> FrameField(frame) == NatToString(frame)
    ensures NatToString(frame) == FrameField(frame)[|FrameField(frame)| - |NatToString(frame)|..]
  {
    NatToStringLength(frame, 4);
    assert Pow10(4) == 10000;
  }

  lemma FrameFieldInjective(f1: nat, f2: nat)
    requires f1 != f2
    ensures FrameField(f1) != FrameField(f2)
  {
    FrameFieldReadsBack(f1);
    FrameFieldReadsBack(f2);
  }

  /** Two different non-negative frame numbers never give the same image name. */
  lemma DistinctFramesDistinctNames(path: string, name: string, component: int, f1: nat, f2: nat, time: string)
    requires f1 != f2
    ensures ImageName(path, name, component, f1, time) != ImageName(path, name, component, f2, time)
  {
    var head := path + "/anim/" + name + "_" + IntToString(component) + "_";
    var x1, x2 := head + FrameField(f1), head + FrameField(f2);
    FrameFieldInjective(f1, f2);
    PrefixCancels(head, FrameField(f1), FrameField(f2));
    SuffixCancels(x1, x2, "_(");
    SuffixCancels(x1 + "_(", x2 + "_(", time);
    SuffixCancels(x1 + "_(" + time, x2 + "_(" + time, ").png");
  }

  /** Two different components of one frame never give the same image name. */
  lemma DistinctComponentsDistinctNames(path: string, name: string, c1: nat, c2: nat, frame: int, time: string)
    requires c1 != c2
    ensures ImageName(path, name, c1, frame, time) != ImageName(path, name, c2, frame, time)
  {
    var head := path + "/anim/" + name + "_";
    ParseNatToString(c1);
    ParseNatToString(c2);
    var x1, x2 := head + IntToString(c1) + "_", head + IntToString(c2) + "_";
    var y1, y2 := x1 + FrameField(frame) + "_(", x2 + FrameField(frame) + "_(";
    PrefixCancels(head, IntToString(c1), IntToString(c2));
    SuffixCancels(head + IntToString(c1), head + IntToString(c2), "_");
    SuffixCancels(x1, x2, FrameField(frame));
    SuffixCancels(x1 + FrameField(frame), x2 + FrameField(frame), "_(");
    SuffixCancels(y1, y2, time);
    SuffixCancels(y1 + time, y2 + time, ").png");
  }

  /** Two different time texts never give the same image name. */
  lemma DistinctTimesDistinctNames(path: string, name: string, component: int, frame: int, t1: string, t2: string)
    requires t1 != t2
    ensures ImageName(path, name, component, frame, t1) != ImageName(path, name, component, frame, t2)
  {
    var head := path + "/anim/" + name + "_" + IntToString(component) + "_" + FrameField(frame) + "_(";
    PrefixCancels(head, t1, t2);
    SuffixCancels(head + t1, head + t2, ").png");
  }
}
