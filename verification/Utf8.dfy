/** UTF-8 as section 4 of RFC 3629 defines it, validated the way `str::from_utf8` reports. */
module Utf8 {
  import opened Common

  /** The first character of a byte string: complete, cut off by the end of the bytes, or ill-formed. */
  datatype Lead = Whole(width: nat) | CutOff | IllFormed

  function Width(b: byte): nat {
    if b <= 0x7F then 1
    else if 0xC2 <= b <= 0xDF then 2
    else if 0xE0 <= b <= 0xEF then 3
    else if 0xF0 <= b <= 0xF4 then 4
    else 0
  }

  predicate IsTail(b: byte) {
    0x80 <= b <= 0xBF
  }

  predicate IsSecond(first: byte, b: byte) {
    if first == 0xE0 then 0xA0 <= b <= 0xBF
    else if first == 0xED then 0x80 <= b <= 0x9F
    else if first == 0xF0 then 0x90 <= b <= 0xBF
    else if first == 0xF4 then 0x80 <= b <= 0x8F
    else IsTail(b)
  }

  function Decode(b: seq<byte>): Lead
    requires b != []
  {
    var width := Width(b[0]);
    if width == 0 then IllFormed
    else if width == 1 then Whole(1)
    else if |b| < 2 then CutOff
    else if !IsSecond(b[0], b[1]) then IllFormed
    else if width == 2 then Whole(2)
    else if |b| < 3 then CutOff
    else if !IsTail(b[2]) then IllFormed
    else if width == 3 then Whole(3)
    else if |b| < 4 then CutOff
    else if !IsTail(b[3]) then IllFormed
    else Whole(4)
  }

  datatype Status = Clean | Incomplete | Broken

  /** How far the bytes are valid, and what stopped the validation. */
  datatype Scan = Scan(validUpTo: nat, status: Status)

  function FromUtf8(b: seq<byte>): (r: Scan)
    ensures r.validUpTo <= |b|
    ensures r.status == Clean <==> r.validUpTo == |b|
    decreases |b|
  {
    if b == [] then Scan(0, Clean)
    else match Decode(b)
      case CutOff => Scan(0, Incomplete)
      case IllFormed => Scan(0, Broken)
      case Whole(width) =>
        var rest := FromUtf8(b[width..]);
        Scan(width + rest.validUpTo, rest.status)
  }

  predicate Valid(b: seq<byte>) {
    FromUtf8(b).status == Clean
  }

  /** A character boundary of a text. */
  predicate Boundary(text: seq<byte>, at: nat) {
    at <= |text| && Valid(text[..at])
  }

  lemma DecodePrefix(b: seq<byte>, k: nat)
    requires b != [] && Decode(b).Whole? && 0 < k <= |b|
    ensures Decode(b[..k]) == if k < Decode(b).width then CutOff else Decode(b)
    ensures Decode(b).width <= |b|
  {
  }

  lemma {:induction false} ValidConcat(a: seq<byte>, b: seq<byte>)
    requires Valid(a)
    ensures Valid(a + b) <==> Valid(b)
    decreases |a|
  {
    if a == [] {
      assert a + b == b;
    } else {
      var width := Decode(a).width;
      DecodePrefix(a, |a|);
      assert (a + b)[..|a|] == a;
      assert Decode(a + b) == Decode(a);
      assert (a + b)[width..] == a[width..] + b;
      ValidConcat(a[width..], b);
    }
  }

  /** The last boundary of a text at or before `k`. */
  ghost predicate IsLastBoundary(text: seq<byte>, k: nat, at: nat) {
    && at <= k
    && Boundary(text, at)
    && (forall other :: at < other <= k ==> !Boundary(text, other))
  }

  /** The last boundary at or before `k`, found by stepping back from it. */
  function LastBoundary(text: seq<byte>, k: nat): (at: nat)
    requires k <= |text|
    ensures IsLastBoundary(text, k, at)
  {
    if k == 0 then assert text[..0] == []; 0
    else if Boundary(text, k) then k
    else LastBoundary(text, k - 1)
  }

  lemma NoBoundaryInsideCharacter(text: seq<byte>, k: nat)
    requires text != [] && Decode(text).Whole? && 0 < k < Decode(text).width && k <= |text|
    ensures IsLastBoundary(text, k, 0)
    ensures FromUtf8(text[..k]) == Scan(0, Incomplete)
  {
    forall at | 0 < at <= k
      ensures FromUtf8(text[..at]) == Scan(0, Incomplete)
    {
      DecodePrefix(text, at);
    }
    assert text[..0] == [];
  }

  lemma LastBoundaryShift(text: seq<byte>, width: nat, k: nat, at: nat)
    requires text != [] && Decode(text) == Whole(width) && width <= k <= |text|
    requires IsLastBoundary(text[width..], k - width, at)
    ensures IsLastBoundary(text, k, width + at)
  {
    BoundaryShift(text, width, at);
    forall other | width + at < other <= k
      ensures !Boundary(text, other)
    {
      BoundaryShift(text, width, other - width);
    }
  }

  /**
    Reading a window of a valid text from a boundary: the scan never meets an ill-formed
    byte, stops at the last boundary inside the window, and wastes at most three bytes.
   */
  lemma {:induction false} WindowScan(text: seq<byte>, k: nat)
    requires Valid(text) && k <= |text|
    ensures FromUtf8(text[..k]).status != Broken
    ensures IsLastBoundary(text, k, FromUtf8(text[..k]).validUpTo)
    ensures k - FromUtf8(text[..k]).validUpTo <= 3
    decreases |text|
  {
    if k == 0 {
      assert text[..0] == [];
    } else {
      var width := Decode(text).width;
      DecodePrefix(text, k);
      if k < width {
        NoBoundaryInsideCharacter(text, k);
      } else {
        var rest := text[width..];
        assert text[..k][width..] == rest[..k - width];
        WindowScan(rest, k - width);
        LastBoundaryShift(text, width, k, FromUtf8(rest[..k - width]).validUpTo);
      }
    }
  }

  /** Boundaries of what follows the first character are boundaries of the whole, shifted. */
  lemma BoundaryShift(text: seq<byte>, width: nat, at: nat)
    requires text != [] && Decode(text) == Whole(width) && width + at <= |text|
    ensures Boundary(text, width + at) <==> Boundary(text[width..], at)
  {
    DecodePrefix(text, width + at);
    assert text[..width + at][width..] == text[width..][..at];
  }

  /** Cutting at one boundary leaves the same boundaries behind it. */
  lemma BoundarySuffix(text: seq<byte>, from: nat, at: nat)
    requires Boundary(text, from) && from <= at <= |text|
    ensures Boundary(text, at) <==> Boundary(text[from..], at - from)
  {
    assert text[..at] == text[..from] + text[from..][..at - from];
    ValidConcat(text[..from], text[from..][..at - from]);
  }

  lemma ValidSuffix(text: seq<byte>, from: nat)
    requires Valid(text) && Boundary(text, from)
    ensures Valid(text[from..])
  {
    assert text == text[..from] + text[from..];
    ValidConcat(text[..from], text[from..]);
  }

  lemma LastBoundarySuffix(text: seq<byte>, from: nat, k: nat, at: nat)
    requires Boundary(text, from) && from <= k <= |text|
    requires IsLastBoundary(text[from..], k - from, at)
    ensures IsLastBoundary(text, k, from + at)
  {
    BoundarySuffix(text, from, from + at);
    forall other | from + at < other <= k
      ensures !Boundary(text, other)
    {
      BoundarySuffix(text, from, other);
    }
  }
}
