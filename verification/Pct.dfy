/** Percent-encoding of URI parts (sections 2.1, 2.3 and 3.3 of RFC 3986), on bytes. */
module Pct {
  import opened Options
  import opened Bytes

  datatype Mode = NonUnreserved | NonHost | NonPath

  const PERCENT: Byte := '%' as int
  const QUESTION: Byte := '?' as int

  predicate IsDigit(c: Byte) { '0' as int <= c <= '9' as int }

  predicate IsAlpha(c: Byte) { 'a' as int <= c <= 'z' as int || 'A' as int <= c <= 'Z' as int }

  predicate IsHexDigit(c: Byte) { IsDigit(c) || 'a' as int <= c <= 'f' as int || 'A' as int <= c <= 'F' as int }

  predicate OneOf(c: Byte, chars: string) { c as char in chars }

  predicate IsUnreserved(c: Byte) { IsDigit(c) || IsAlpha(c) || OneOf(c, "-_.~") }

  predicate IsSubdelim(c: Byte) { OneOf(c, "!$&'()*+,;=") }

  predicate IsSegmentChar(c: Byte) { IsUnreserved(c) || IsSubdelim(c) || OneOf(c, ":@/") }

  predicate IsHostChar(c: Byte) { IsHexDigit(c) || OneOf(c, ".:[]") || IsUnreserved(c) || IsSubdelim(c) }

  /** Characters that stay as they are. */
  predicate Plain(mode: Mode, c: Byte) {
    match mode
    case NonUnreserved => IsUnreserved(c)
    case NonHost => IsHostChar(c)
    case NonPath => IsSegmentChar(c)
  }

  /** The printable characters that are encoded in a mode: delimiters that the part does not use, and those that no URI has. */
  function Escaped(mode: Mode): string {
    match mode
    case NonUnreserved => "!\"#$%&'()*+,/:;<=>?@[\\]^`{|}"
    case NonHost => "\"#%/<>?@\\^`{|}"
    case NonPath => "\"#%<>?[\\]^`{|}"
  }

  /** What stays as it is: printable characters but for these. */
  lemma {:induction false} PlainIff(mode: Mode, c: Byte)
    ensures Plain(mode, c) <==> '!' as int <= c <= '~' as int && !OneOf(c, Escaped(mode))
  {
    match mode
    case NonUnreserved => PlainUnreserved(c);
    case NonHost => PlainHost(c);
    case NonPath => PlainPath(c);
  }

  lemma {:induction false} PlainUnreserved(c: Byte)
    ensures IsUnreserved(c) <==> '!' as int <= c <= '~' as int && !OneOf(c, Escaped(NonUnreserved))
  {
  }

  lemma {:induction false} PlainHost(c: Byte)
    ensures IsHostChar(c) <==> '!' as int <= c <= '~' as int && !OneOf(c, Escaped(NonHost))
  {
  }

  lemma {:induction false} PlainPath(c: Byte)
    ensures IsSegmentChar(c) <==> '!' as int <= c <= '~' as int && !OneOf(c, Escaped(NonPath))
  {
  }

  function ToHex(d: Byte): Byte
    requires d < 16
  {
    if d < 10 then '0' as int + d else 'A' as int + d - 10
  }

  function HexValue(c: Byte): Byte
    requires IsHexDigit(c)
  {
    if IsDigit(c) then c - '0' as int
    else if c >= 'a' as int then c - 'a' as int + 10
    else c - 'A' as int + 10
  }

  function EncodeByte(c: Byte, mode: Mode): seq<Byte> {
    if Plain(mode, c) then [c] else [PERCENT, ToHex(c / 16), ToHex(c % 16)]
  }

  /** What pct_encode appends, or None when it meets a NUL. */
  function Encode(s: seq<Byte>, mode: Mode): Option<seq<Byte>> {
    if s == [] then Some([])
    else if s[0] == 0 then None
    else
      match Encode(s[1..], mode)
      case None => None
      case Some(t) => Some(EncodeByte(s[0], mode) + t)
  }

  function Decode(s: seq<Byte>): Option<seq<Byte>> {
    if s == [] then Some([])
    else if s[0] == 0 then None
    else if s[0] == PERCENT then
      if |s| < 3 || !IsHexDigit(s[1]) || !IsHexDigit(s[2]) then None
      else
        var c := HexValue(s[1]) * 16 + HexValue(s[2]);
        if c == 0 then None
        else
          match Decode(s[3..])
          case None => None
          case Some(t) => Some([c] + t)
    else
      match Decode(s[1..])
      case None => None
      case Some(t) => Some([s[0]] + t)
  }

  predicate NulFree(s: seq<Byte>) { forall i :: 0 <= i < |s| ==> s[i] != 0 }

  lemma {:induction false} PercentIsNeverPlain(mode: Mode)
    ensures !Plain(mode, PERCENT)
    ensures !Plain(mode, QUESTION)
  {
  }

  lemma {:induction false} HexRoundTrip(c: Byte)
    ensures IsHexDigit(ToHex(c / 16)) && IsHexDigit(ToHex(c % 16))
    ensures HexValue(ToHex(c / 16)) * 16 + HexValue(ToHex(c % 16)) == c
    ensures ToHex(c / 16) != QUESTION && ToHex(c % 16) != QUESTION
  {
  }

  /** Hexadecimal digits of either case, and what they are worth. */
  lemma {:induction false} HexDigits(c: Byte)
    ensures IsHexDigit(c) <==> OneOf(c, "0123456789abcdefABCDEF")
    ensures IsHexDigit(c) ==>
              HexValue(c) < 16 && (c == "0123456789abcdef"[HexValue(c)] as int || c == "0123456789ABCDEF"[HexValue(c)] as int)
  {
  }

  /** Not a NUL, and a percent sign only before two digits that are not both zero. */
  predicate GoodAt(s: seq<Byte>, i: nat)
    requires i < |s|
  {
    && s[i] != 0
    && (s[i] == PERCENT ==>
          && i + 2 < |s| && IsHexDigit(s[i + 1]) && IsHexDigit(s[i + 2])
          && !(s[i + 1] == '0' as int && s[i + 2] == '0' as int))
  }

  predicate WellFormed(s: seq<Byte>) { forall i :: 0 <= i < |s| ==> GoodAt(s, i) }

  lemma {:induction false} GoodAtTail(s: seq<Byte>, n: nat, i: nat)
    requires n <= i < |s|
    ensures GoodAt(s[n..], i - n) <==> GoodAt(s, i)
  {
  }

  lemma {:induction false} WellFormedTail(s: seq<Byte>, n: nat)
    requires n <= |s| && forall i :: 1 <= i < n ==> s[i] != 0 && s[i] != PERCENT
    ensures n > 0 ==> (WellFormed(s) <==> GoodAt(s, 0) && WellFormed(s[n..]))
  {
    hide GoodAt;
    forall i | n <= i < |s|
      ensures GoodAt(s[n..], i - n) <==> GoodAt(s, i)
    {
      GoodAtTail(s, n, i);
    }
    forall i | 1 <= i < n
      ensures GoodAt(s, i)
    {
      PlainGood(s, i);
    }
    if n > 0 && WellFormed(s) {
      forall i | 0 <= i < |s[n..]|
        ensures GoodAt(s[n..], i)
      {
        assert GoodAt(s, n + i);
        GoodAtTail(s, n, n + i);
      }
    }
  }

  lemma {:induction false} PlainGood(s: seq<Byte>, i: nat)
    requires i < |s| && s[i] != 0 && s[i] != PERCENT
    ensures GoodAt(s, i)
  {
  }

  lemma {:induction false} ZeroDigits(a: Byte, b: Byte)
    requires IsHexDigit(a) && IsHexDigit(b)
    ensures a != 0 && b != 0 && a != PERCENT && b != PERCENT
    ensures HexValue(a) * 16 + HexValue(b) == 0 <==> a == '0' as int && b == '0' as int
  {
  }

  /** Decoding fails exactly on malformed strings. */
  lemma {:induction false} DecodeFailsIff(s: seq<Byte>)
    ensures Decode(s).Some? <==> WellFormed(s)
  {
    hide IsHexDigit, HexValue;
    if s != [] && s[0] != 0 {
      if s[0] == PERCENT {
        assert WellFormed(s) ==> GoodAt(s, 0);
        if |s| >= 3 && IsHexDigit(s[1]) && IsHexDigit(s[2]) {
          ZeroDigits(s[1], s[2]);
          DecodeFailsIff(s[3..]);
          WellFormedTail(s, 3);
        }
      } else {
        DecodeFailsIff(s[1..]);
        WellFormedTail(s, 1);
      }
    } else if s != [] {
      assert !GoodAt(s, 0);
    }
  }

  /** Encoding fails exactly on strings with a NUL. */
  lemma {:induction false} EncodeFailsIff(s: seq<Byte>, mode: Mode)
    ensures Encode(s, mode).Some? <==> NulFree(s)
  {
    if s != [] {
      EncodeFailsIff(s[1..], mode);
      assert NulFree(s) <==> s[0] != 0 && NulFree(s[1..]) by {
        assert forall i :: 1 <= i < |s| ==> s[i] == s[1..][i - 1];
      }
    }
  }

  /** Decoding restores what was encoded, in every mode. */
  lemma {:induction false} DecodeEncode(s: seq<Byte>, mode: Mode)
    requires NulFree(s)
    ensures Encode(s, mode).Some? && Decode(Encode(s, mode).value) == Some(s)
  {
    EncodeFailsIff(s, mode);
    if s != [] {
      EncodeFailsIff(s[1..], mode);
      assert NulFree(s[1..]);
      DecodeEncode(s[1..], mode);
      var t := Encode(s[1..], mode).value;
      var e := EncodeByte(s[0], mode);
      PercentIsNeverPlain(mode);
      HexRoundTrip(s[0]);
      assert (e + t)[|e|..] == t;
      assert [s[0]] + s[1..] == s;
    }
  }

  /** What was decoded has no NUL. */
  lemma {:induction false} DecodeNulFree(s: seq<Byte>)
    requires Decode(s).Some?
    ensures NulFree(Decode(s).value)
    decreases |s|
  {
    if s != [] {
      if s[0] == PERCENT {
        DecodeNulFree(s[3..]);
      } else {
        DecodeNulFree(s[1..]);
      }
    }
  }

  lemma {:induction false} EncodeHasNoQuestion(s: seq<Byte>, mode: Mode)
    requires Encode(s, mode).Some?
    ensures QUESTION !in Encode(s, mode).value
  {
    if s != [] {
      EncodeHasNoQuestion(s[1..], mode);
      PercentIsNeverPlain(mode);
      HexRoundTrip(s[0]);
    }
  }

  /** dst followed by an optional rest */
  ghost function Then(dst: seq<Byte>, rest: Option<seq<Byte>>): Option<seq<Byte>> {
    match rest
    case None => None
    case Some(t) => Some(dst + t)
  }

  lemma {:induction false} ThenEmpty(dst: seq<Byte>, rest: Option<seq<Byte>>)
    ensures Then([], rest) == rest && Then(dst, Some([])) == Some(dst)
  {
    assert dst + [] == dst;
    if rest.Some? {
      assert [] + rest.value == rest.value;
    }
  }

  lemma {:induction false} ThenTwice(a: seq<Byte>, b: seq<Byte>, rest: Option<seq<Byte>>)
    ensures Then(a, Then(b, rest)) == Then(a + b, rest)
  {
    if rest.Some? {
      assert a + (b + rest.value) == a + b + rest.value;
    }
  }

  /** pct_encode: appends to dst until the end or a NUL. */
  method PctEncode(src: seq<Byte>, mode: Mode) returns (ok: bool, dst: seq<Byte>)
    ensures ok <==> NulFree(src)
    ensures ok ==> Encode(src, mode) == Some(dst)
  {
    EncodeFailsIff(src, mode);
    dst := [];
    var i := 0;
    assert src[0..] == src;
    ThenEmpty([], Encode(src, mode));
    while i < |src|
      invariant 0 <= i <= |src|
      invariant Then(dst, Encode(src[i..], mode)) == Encode(src, mode)
    {
      if src[i] == 0 {
        return false, dst;
      }
      assert src[i..][1..] == src[i + 1..];
      ThenTwice(dst, EncodeByte(src[i], mode), Encode(src[i + 1..], mode));
      if Plain(mode, src[i]) {
        dst := dst + [src[i]];
      } else {
        dst := dst + [PERCENT, ToHex(src[i] / 16), ToHex(src[i] % 16)];
      }
      i := i + 1;
    }
    ThenEmpty(dst, Some([]));
    ok := true;
  }

  /** pct_decode: appends to dst until the end or something malformed. */
  method PctDecode(src: seq<Byte>) returns (ok: bool, dst: seq<Byte>)
    ensures ok <==> Decode(src).Some?
    ensures ok ==> Decode(src) == Some(dst)
  {
    dst := [];
    var i := 0;
    assert src[0..] == src;
    ThenEmpty([], Decode(src));
    while i < |src|
      invariant 0 <= i <= |src|
      invariant Then(dst, Decode(src[i..])) == Decode(src)
    {
      ghost var rest := src[i..];
      if src[i] == 0 {
        return false, dst;
      }
      if src[i] == PERCENT {
        if |src| - i < 3 || !IsHexDigit(src[i + 1]) || !IsHexDigit(src[i + 2]) {
          return false, dst;
        }
        var c := HexValue(src[i + 1]) * 16 + HexValue(src[i + 2]);
        if c == 0 {
          return false, dst;
        }
        assert rest[3..] == src[i + 3..];
        ThenTwice(dst, [c], Decode(src[i + 3..]));
        dst := dst + [c];
        i := i + 3;
      } else {
        assert rest[1..] == src[i + 1..];
        ThenTwice(dst, [src[i]], Decode(src[i + 1..]));
        dst := dst + [src[i]];
        i := i + 1;
      }
    }
    ThenEmpty(dst, Some([]));
    ok := true;
  }
}
