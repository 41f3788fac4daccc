/**
 * `UIDevice.isTopDevice` as a function of the device's model identifier
 * (such as "iPhone10,3"): an iPhone whose major model number is exactly 10.
 *
 * The major number is the first comma-separated piece after "iPhone", with
 * empty pieces dropped, read the way Swift's `Int(_:)` reads a string:
 * an optional sign, one or more decimal digits, and a value that fits in a
 * 64-bit signed integer.
 */
module DeviceChecker {
  import opened Wrappers

  const IPhoneName: string := "iPhone"
  /** The only major model number that counts as a top device (iPhone 8, 8 Plus and X). */
  const IPhoneMinModel: int := 10
  const MaxInt: int := 0x7FFF_FFFF_FFFF_FFFF
  const MinInt: int := -0x8000_0000_0000_0000

  predicate HasPrefix(s: string, p: string) {
    |p| <= |s| && s[..|p|] == p
  }

  /** The length of the piece `s` starts with, up to the first separator. */
  function PieceLength(s: string, sep: char): (n: nat)
    ensures n <= |s|
    ensures forall i :: 0 <= i < n ==> s[i] != sep
    ensures n < |s| ==> s[n] == sep
  {
    if s == [] || s[0] == sep then 0 else 1 + PieceLength(s[1..], sep)
  }

  /** Swift's `split(separator:)`: the pieces between separators, empty pieces dropped. */
  function SplitOmittingEmpty(s: string, sep: char): (r: seq<string>)
    ensures forall i :: 0 <= i < |r| ==> r[i] != [] && sep !in r[i]
    decreases |s|
  {
    if s == [] then []
    else if s[0] == sep then SplitOmittingEmpty(s[1..], sep)
    else
      var n := PieceLength(s, sep);
      [s[..n]] + SplitOmittingEmpty(s[n..], sep)
  }

  predicate IsDigit(c: char) {
    '0' <= c <= '9'
  }

  predicate AllDigits(s: string) {
    forall i :: 0 <= i < |s| ==> IsDigit(s[i])
  }

  /** The value of a string of decimal digits, most significant first. */
  function DigitsValue(s: string): nat
    requires AllDigits(s)
  {
    if s == [] then 0 else DigitsValue(s[..|s| - 1]) * 10 + (s[|s| - 1] as int - '0' as int)
  }

  /** Swift's `Int(_: String)`: an optional sign, then one or more digits, in the 64-bit range. */
  function ParseInt(s: string): (r: Option<int>)
    ensures r.Some? ==> MinInt <= r.value <= MaxInt
    ensures r.Some? ==> s != [] && (IsDigit(s[0]) || s[0] == '+' || s[0] == '-')
  {
    var signed := |s| > 0 && (s[0] == '+' || s[0] == '-');
    var digits := if signed then s[1..] else s;
    if digits == [] || !AllDigits(digits) then None
    else
      var magnitude: int := DigitsValue(digits);
      var v := if signed && s[0] == '-' then -magnitude else magnitude;
      if MinInt <= v <= MaxInt then Some(v) else None
  }

  /** `isTopDevice`, for the model identifier `modelID`. */
  function IsTopDevice(modelID: string): (r: bool)
    ensures r ==> HasPrefix(modelID, IPhoneName)
  {
    if !HasPrefix(modelID, IPhoneName) then false
    else
      var pieces := SplitOmittingEmpty(modelID[|IPhoneName|..], ',');
      if pieces == [] then false
      else
        match ParseInt(pieces[0])
        case Some(major) => major == IPhoneMinModel
        case None => false
  }

  // ---------------------------------------------------------------------
  // Which identifiers are top devices

  function Repeat(c: char, k: nat): (r: string)
    ensures |r| == k && forall i :: 0 <= i < k ==> r[i] == c
  {
    if k == 0 then [] else Repeat(c, k - 1) + [c]
  }

  /** The ways of writing ten that `Int(_:)` accepts: an optional `+`, leading zeros, then "10". */
  function Ten(zeros: nat, plus: bool): string {
    (if plus then "+" else "") + Repeat('0', zeros) + "10"
  }

  /** "iPhone", some commas, a spelling of ten, and a tail. */
  function Spelled(commas: nat, zeros: nat, plus: bool, tail: string): string {
    IPhoneName + Repeat(',', commas) + Ten(zeros, plus) + tail
  }

  lemma {:induction false} ZerosValue(k: nat)
    ensures AllDigits(Repeat('0', k)) && DigitsValue(Repeat('0', k)) == 0
  {
    if k > 0 {
      ZerosValue(k - 1);
      assert Repeat('0', k)[..k - 1] == Repeat('0', k - 1);
    }
  }

  /** Only strings of zeros are worth zero. */
  lemma {:induction false} ValueZero(s: string)
    requires AllDigits(s) && DigitsValue(s) == 0
    ensures s == Repeat('0', |s|)
    decreases |s|
  {
    if s != [] {
      var init := s[..|s| - 1];
      assert DigitsValue(init) == 0;
      ValueZero(init);
      assert s == init + [s[|s| - 1]];
    }
  }

  /** The last digit of a digit string and the value of the rest. */
  lemma LastDigit(s: string) returns (init: string, d: int)
    requires AllDigits(s) && s != []
    ensures init == s[..|s| - 1] && AllDigits(init) && 0 <= d <= 9 && d == s[|s| - 1] as int - '0' as int
    ensures DigitsValue(s) == DigitsValue(init) * 10 + d
  {
    init := s[..|s| - 1];
    d := s[|s| - 1] as int - '0' as int;
  }

  lemma TimesTenPlusDigit(a: nat, d: int, v: nat)
    requires 0 <= d <= 9 && a * 10 + d == v && v < 20
    ensures a == v / 10 && d == v % 10
  {
  }

  /** The digit strings worth ten are zeros followed by "10". */
  lemma LastTwo(s: string)
    requires |s| >= 2
    ensures s == s[..|s| - 2] + [s[|s| - 2], s[|s| - 1]]
    ensures s[..|s| - 1][..|s| - 2] == s[..|s| - 2] && s[..|s| - 1][|s| - 2] == s[|s| - 2]
  {
  }

  lemma ValueTen(s: string)
    requires AllDigits(s) && DigitsValue(s) == 10
    ensures |s| >= 2 && s == Repeat('0', |s| - 2) + "10"
  {
    var init, d := LastDigit(s);
    TimesTenPlusDigit(DigitsValue(init), d, 10);
    var init2, d2 := LastDigit(init);
    TimesTenPlusDigit(DigitsValue(init2), d2, 1);
    LastTwo(s);
    ValueZero(init2);
    assert [s[|s| - 2], s[|s| - 1]] == "10";
  }

  lemma TenParses(zeros: nat, plus: bool)
    ensures ParseInt(Ten(zeros, plus)) == Some(10)
  {
    var z := Repeat('0', zeros);
    var ds := z + "10";
    ZerosValue(zeros);
    assert ds[..|ds| - 1] == z + "1" && (z + "1")[..|z|] == z;
    assert AllDigits(ds);
    assert DigitsValue(ds) == 10;
    var t := Ten(zeros, plus);
    if plus {
      assert t == "+" + ds && t[1..] == ds;
    } else {
      assert t == ds && IsDigit(t[0]);
    }
  }

  /** Whatever `Int(_:)` reads as ten is one of the spellings of ten. */
  lemma ParsesAsTen(p: string)
    requires ParseInt(p) == Some(10)
    ensures exists zeros: nat, plus :: p == Ten(zeros, plus)
  {
    if p[0] == '+' {
      ValueTen(p[1..]);
      assert p == Ten(|p| - 3, true);
    } else {
      ValueTen(p);
      assert p == Ten(|p| - 2, false);
    }
  }

  lemma {:induction false} PieceLengthOf(p: string, t: string, sep: char)
    requires sep !in p && (t == [] || t[0] == sep)
    ensures PieceLength(p + t, sep) == |p|
    decreases |p|
  {
    if p != [] {
      assert (p + t)[1..] == p[1..] + t;
      PieceLengthOf(p[1..], t, sep);
    }
  }

  /** Leading separators are skipped, and the first piece runs to the next separator. */
  lemma {:induction false} FirstPieceOf(k: nat, p: string, t: string, sep: char)
    requires p != [] && sep !in p && (t == [] || t[0] == sep)
    ensures SplitOmittingEmpty(Repeat(sep, k) + p + t, sep) != []
    ensures SplitOmittingEmpty(Repeat(sep, k) + p + t, sep)[0] == p
    decreases k
  {
    if k == 0 {
      assert Repeat(sep, k) + p + t == p + t;
      PieceLengthOf(p, t, sep);
      assert (p + t)[..|p|] == p;
    } else {
      var s := Repeat(sep, k) + p + t;
      assert s[0] == sep;
      assert Repeat(sep, k) == [sep] + Repeat(sep, k - 1);
      assert s[1..] == Repeat(sep, k - 1) + p + t;
      FirstPieceOf(k - 1, p, t, sep);
    }
  }

  /** `s` is `k` separators, then `p`, then a tail that is empty or starts with a separator. */
  predicate Shape(s: string, sep: char, k: nat, p: string, t: string) {
    s == Repeat(sep, k) + p + t && (t == [] || t[0] == sep)
  }

  /** A split with a first piece: the string is some separators, that piece, and a tail starting at a separator. */
  lemma {:induction false} FirstPieceShape(s: string, sep: char)
    requires SplitOmittingEmpty(s, sep) != []
    ensures exists k: nat, t: string :: Shape(s, sep, k, SplitOmittingEmpty(s, sep)[0], t)
    decreases |s|
  {
    var p := SplitOmittingEmpty(s, sep)[0];
    if s[0] == sep {
      FirstPieceShape(s[1..], sep);
      var k: nat, t: string :| Shape(s[1..], sep, k, p, t);
      assert Repeat(sep, k + 1) == [sep] + Repeat(sep, k);
      assert Shape(s, sep, k + 1, p, t);
    } else {
      var n := PieceLength(s, sep);
      assert p == s[..n];
      var t := s[n..];
      assert Shape(s, sep, 0, p, t);
    }
  }

  /** What may follow the major number: nothing, or a comma and the rest. */
  predicate Tail(t: string) {
    t == [] || t[0] == ','
  }

  /** Every spelled identifier is a top device. */
  lemma SpelledIsTop(commas: nat, zeros: nat, plus: bool, tail: string)
    requires Tail(tail)
    ensures IsTopDevice(Spelled(commas, zeros, plus, tail))
  {
    var m := Spelled(commas, zeros, plus, tail);
    var rest := Repeat(',', commas) + Ten(zeros, plus) + tail;
    assert m == IPhoneName + rest;
    assert m[..|IPhoneName|] == IPhoneName && m[|IPhoneName|..] == rest;
    assert ',' !in Ten(zeros, plus) by {
      assert forall i :: 0 <= i < |Ten(zeros, plus)| ==> Ten(zeros, plus)[i] in "+01";
    }
    FirstPieceOf(commas, Ten(zeros, plus), tail, ',');
    TenParses(zeros, plus);
  }

  /** The first piece after "iPhone" of a top device's identifier is read as ten. */
  lemma TopMajorPiece(modelID: string)
    requires IsTopDevice(modelID)
    ensures modelID == IPhoneName + modelID[|IPhoneName|..]
    ensures SplitOmittingEmpty(modelID[|IPhoneName|..], ',') != []
    ensures ParseInt(SplitOmittingEmpty(modelID[|IPhoneName|..], ',')[0]) == Some(10)
  {
    assert modelID == modelID[..|IPhoneName|] + modelID[|IPhoneName|..];
  }

  lemma SpelledSplits(commas: nat, zeros: nat, plus: bool, tail: string)
    ensures Spelled(commas, zeros, plus, tail) == IPhoneName + (Repeat(',', commas) + Ten(zeros, plus) + tail)
  {
  }

  /** Every top device's identifier is spelled that way. */
  lemma TopIsSpelled(modelID: string)
    requires IsTopDevice(modelID)
    ensures exists commas: nat, zeros: nat, plus: bool, tail: string ::
      modelID == Spelled(commas, zeros, plus, tail) && Tail(tail)
  {
    TopMajorPiece(modelID);
    var rest := modelID[|IPhoneName|..];
    var p := SplitOmittingEmpty(rest, ',')[0];
    ParsesAsTen(p);
    var zeros: nat, plus :| p == Ten(zeros, plus);
    FirstPieceShape(rest, ',');
    var k: nat, t: string :| Shape(rest, ',', k, p, t);
    SpelledSplits(k, zeros, plus, t);
    assert modelID == Spelled(k, zeros, plus, t) && Tail(t);
  }

  /** The top devices are exactly the spelled identifiers. */
  lemma TopDevicesAreSpelled(modelID: string)
    ensures IsTopDevice(modelID) <==> exists commas: nat, zeros: nat, plus: bool, tail: string ::
      modelID == Spelled(commas, zeros, plus, tail) && Tail(tail)
  {
    if IsTopDevice(modelID) {
      TopIsSpelled(modelID);
    } else if exists commas: nat, zeros: nat, plus: bool, tail: string :: modelID == Spelled(commas, zeros, plus, tail) && Tail(tail) {
      var commas: nat, zeros: nat, plus: bool, tail: string :| modelID == Spelled(commas, zeros, plus, tail) && Tail(tail);
      SpelledIsTop(commas, zeros, plus, tail);
    }
  }

  // ---------------------------------------------------------------------
  // Identifiers written with a plain major number

  /** The decimal digits of `n`, most significant first, without leading zeros. */
  function DecimalString(n: nat): (s: string)
    ensures s != [] && AllDigits(s) && DigitsValue(s) == n
  {
    if n < 10 then [('0' as int + n) as char]
    else
      var s := DecimalString(n / 10) + [('0' as int + n % 10) as char];
      assert s[..|s| - 1] == DecimalString(n / 10);
      s
  }

  lemma DecimalParses(n: nat)
    requires n <= MaxInt
    ensures ParseInt(DecimalString(n)) == Some(n)
  {
    var s := DecimalString(n);
    assert IsDigit(s[0]);
  }

  /** "iPhone<major>,<minor>" is a top device exactly when the major number is 10. */
  lemma MajorNumberDecides(major: nat, minor: string)
    requires major <= MaxInt
    ensures IsTopDevice(IPhoneName + DecimalString(major) + "," + minor) <==> major == IPhoneMinModel
  {
    var d := DecimalString(major);
    var m := IPhoneName + d + "," + minor;
    assert m == IPhoneName + (Repeat(',', 0) + d + ([','] + minor));
    assert m[..|IPhoneName|] == IPhoneName && m[|IPhoneName|..] == Repeat(',', 0) + d + ([','] + minor);
    assert ',' !in d by {
      assert forall i :: 0 <= i < |d| ==> IsDigit(d[i]);
    }
    FirstPieceOf(0, d, [','] + minor, ',');
    DecimalParses(major);
  }

  lemma KnownModels()
    ensures !IsTopDevice("iPhone11,2")
    ensures IsTopDevice("iPhone10,3")
  {
    assert DecimalString(11) == "11";
    assert DecimalString(10) == "10";
    assert "iPhone11,2" == IPhoneName + DecimalString(11) + "," + "2";
    assert "iPhone10,3" == IPhoneName + DecimalString(10) + "," + "3";
    MajorNumberDecides(11, "2");
    MajorNumberDecides(10, "3");
  }

  /** No major number at all, or a piece that is not a number, is not a top device. */
  lemma NoMajorNumber(rest: string)
    requires rest == [] || SplitOmittingEmpty(rest, ',') == [] || ParseInt(SplitOmittingEmpty(rest, ',')[0]).None?
    ensures !IsTopDevice(IPhoneName + rest)
  {
    var m := IPhoneName + rest;
    assert m[..|IPhoneName|] == IPhoneName && m[|IPhoneName|..] == rest;
  }
}
