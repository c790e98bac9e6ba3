/**
 Strings as the firmware stores them: sequences of Unicode scalar values whose UTF-8
 encoding fits a fixed number of bytes (`heapless::String<32>`).
 Encoding and strict decoding follow RFC 3629, section 3.
 */
module Utf8 {
  import opened Types

  const NAME_CAPACITY: nat := 32

  function EncodeChar(c: char): (r: seq<u8>)
    ensures 1 <= |r| <= 4
    ensures |r| == 1 <==> c as int < 0x80
  {
    var n := c as int;
    if n < 0x80 then [n]
    else if n < 0x800 then [0xC0 + n / 0x40, 0x80 + n % 0x40]
    else if n < 0x1_0000 then
      var m := n / 0x40;
      [0xE0 + m / 0x40, 0x80 + m % 0x40, 0x80 + n % 0x40]
    else
      var m := n / 0x40;
      var k := m / 0x40;
      [0xF0 + k / 0x40, 0x80 + k % 0x40, 0x80 + m % 0x40, 0x80 + n % 0x40]
  }

  /**
   The bytes of a character carry its number in groups of six bits, the most significant first,
   behind the lead byte of the shortest form that can hold it.
   */
  lemma CharMeaning(c: char)
    ensures var n, b := c as int, EncodeChar(c);
            if n < 0x80 then |b| == 1 && b[0] == n
            else if n < 0x800 then |b| == 2 && n == (b[0] as int - 0xC0) * 0x40 + (b[1] as int - 0x80)
            else if n < 0x1_0000 then
              |b| == 3 && n == (b[0] as int - 0xE0) * 0x1000 + (b[1] as int - 0x80) * 0x40 + (b[2] as int - 0x80)
            else
              && |b| == 4
              && n == (b[0] as int - 0xF0) * 0x4_0000 + (b[1] as int - 0x80) * 0x1000
                      + (b[2] as int - 0x80) * 0x40 + (b[3] as int - 0x80)
    ensures forall i | 1 <= i < |EncodeChar(c)| :: 0x80 <= EncodeChar(c)[i] < 0xC0
  {}

  function Encode(s: string): seq<u8> {
    if s == [] then [] else EncodeChar(s[0]) + Encode(s[1..])
  }

  /** Number of bytes of a multi-byte sequence announced by its lead byte; 0 if it is no lead byte. */
  function SequenceLength(lead: u8): (n: nat)
    ensures n <= 4
  {
    if lead < 0x80 then 1
    else if 0xC0 <= lead < 0xE0 then 2
    else if 0xE0 <= lead < 0xF0 then 3
    else if 0xF0 <= lead < 0xF8 then 4
    else 0
  }

  predicate IsContinuation(b: u8) {
    0x80 <= b < 0xC0
  }

  /** Number carried by a lead byte's low bits (`high`) followed by six-bit groups. */
  function Group(high: int, continuation: u8): int {
    high * 0x40 + (continuation as int - 0x80)
  }

  /** The number carried by an `n`-byte sequence. */
  function Payload(b: seq<u8>, n: nat): int
    requires 1 <= n <= 4 && n <= |b|
  {
    match n
    case 1 => b[0]
    case 2 => Group(b[0] as int - 0xC0, b[1])
    case 3 => Group(Group(b[0] as int - 0xE0, b[1]), b[2])
    case _ => Group(Group(Group(b[0] as int - 0xF0, b[1]), b[2]), b[3])
  }

  /** A scalar value that needs exactly `n` bytes: no overlong form, no surrogate, at most U+10FFFF. */
  predicate IsScalarOfLength(v: int, n: nat) {
    match n
    case 1 => 0 <= v < 0x80
    case 2 => 0x80 <= v < 0x800
    case 3 => 0x800 <= v < 0xD800 || 0xE000 <= v < 0x1_0000
    case 4 => 0x1_0000 <= v < 0x11_0000
    case _ => false
  }

  predicate IsWellFormed(b: seq<u8>, n: nat) {
    && 1 <= n <= |b| && n <= 4
    && SequenceLength(b[0]) == n
    && (forall i :: 1 <= i < n ==> IsContinuation(b[i]))
    && IsScalarOfLength(Payload(b, n), n)
  }

  lemma GroupDigits(high: int, continuation: u8)
    requires IsContinuation(continuation)
    ensures Group(high, continuation) / 0x40 == high
    ensures 0x80 + Group(high, continuation) % 0x40 == continuation
  {}

  lemma WellFormedEncodes(b: seq<u8>, n: nat)
    requires IsWellFormed(b, n)
    ensures EncodeChar(Payload(b, n) as char) == b[..n]
  {
    if n == 2 {
      GroupDigits(b[0] as int - 0xC0, b[1]);
    } else if n == 3 {
      var m := Group(b[0] as int - 0xE0, b[1]);
      GroupDigits(b[0] as int - 0xE0, b[1]);
      GroupDigits(m, b[2]);
    } else if n == 4 {
      var k := Group(b[0] as int - 0xF0, b[1]);
      var m := Group(k, b[2]);
      GroupDigits(b[0] as int - 0xF0, b[1]);
      GroupDigits(k, b[2]);
      GroupDigits(m, b[3]);
    }
  }

  /** The first character of `b`, if `b` starts with a well-formed sequence. */
  function DecodeChar(b: seq<u8>): (r: Option<char>)
    ensures r.Some? ==> EncodeChar(r.value) <= b
  {
    if b == [] then None else
    var n := SequenceLength(b[0]);
    if !IsWellFormed(b, n) then None else
    WellFormedEncodes(b, n);
    Some(Payload(b, n) as char)
  }

  /** `core::str::from_utf8`: the whole input or nothing. */
  function Decode(b: seq<u8>): (r: Option<string>)
    ensures r.Some? ==> Encode(r.value) == b
  {
    if b == [] then Some("") else
    match DecodeChar(b)
    case None => None
    case Some(c) =>
      match Decode(b[|EncodeChar(c)|..])
      case None => None
      case Some(rest) => Some([c] + rest)
  }

  lemma DecodeCharInverse(c: char, rest: seq<u8>)
    ensures DecodeChar(EncodeChar(c) + rest) == Some(c)
  {
    var e := EncodeChar(c);
    var b := e + rest;
    assert forall i | 0 <= i < |e| :: b[i] == e[i];
    assert Payload(b, |e|) == c as int;
    assert IsWellFormed(b, |e|);
  }

  /** Every string is recovered from its encoding; with `Decode`'s own contract, the two are inverse. */
  lemma {:induction false} DecodeInverse(s: string)
    ensures Decode(Encode(s)) == Some(s)
  {
    if s != [] {
      DecodeCharInverse(s[0], Encode(s[1..]));
      assert Encode(s)[|EncodeChar(s[0])|..] == Encode(s[1..]);
      DecodeInverse(s[1..]);
      assert [s[0]] + s[1..] == s;
    }
  }

  lemma {:induction false} EncodeConcat(s: string, t: string)
    ensures Encode(s + t) == Encode(s) + Encode(t)
  {
    if s == [] {
      assert s + t == t;
    } else {
      assert (s + t)[1..] == s[1..] + t;
      EncodeConcat(s[1..], t);
    }
  }

  lemma {:induction false} EncodedLength(s: string)
    ensures |s| <= |Encode(s)|
  {
    if s != [] {
      EncodedLength(s[1..]);
    }
  }

  lemma {:induction false} AsciiLength(s: string)
    requires forall i | 0 <= i < |s| :: s[i] as int < 0x80
    ensures |Encode(s)| == |s|
  {
    if s != [] {
      AsciiLength(s[1..]);
    }
  }

  /** A `heapless::String<32>`. */
  type Name = s: string | |Encode(s)| <= NAME_CAPACITY witness ""

  /** `String::push`: appends the character if it still fits, else leaves the string alone. */
  function Push(name: Name, c: char): Name {
    if Fits(name, c) then
      EncodeConcat(name, [c]);
      assert Encode([c]) == EncodeChar(c);
      name + [c]
    else name
  }

  predicate Fits(name: Name, c: char) {
    |Encode(name)| + |EncodeChar(c)| <= NAME_CAPACITY
  }

  /** Pushing characters one after the other and ignoring the failures, as the store does. */
  function PushEach(name: Name, cs: string): Name
    decreases cs
  {
    if cs == [] then name else PushEach(Push(name, cs[0]), cs[1..])
  }

  function Take<T>(s: seq<T>, n: nat): seq<T> {
    if |s| <= n then s else s[..n]
  }

  /** Rebuilding a string that fits (here: at most 32 bytes, so at most 32 characters) loses nothing. */
  lemma {:induction false} PushEachRestores(name: Name, cs: string)
    requires |Encode(name)| + |Encode(cs)| <= NAME_CAPACITY
    ensures PushEach(name, cs) == name + cs
    decreases cs
  {
    if cs == [] {
      assert name + cs == name;
    } else {
      assert name + cs == name + [cs[0]] + cs[1..];
      EncodeConcat(name, [cs[0]]);
      assert Encode([cs[0]]) == EncodeChar(cs[0]);
      PushEachRestores(name + [cs[0]], cs[1..]);
    }
  }

  // ─── What a cut name keeps ─────────────────────────────────────────────────

  /** The characters of `cs` that `kept` marks, in order. */
  function Selected(cs: string, kept: seq<bool>): string
    requires |kept| == |cs|
  {
    if cs == [] then "" else
    var n := |cs| - 1;
    Selected(cs[..n], kept[..n]) + if kept[n] then [cs[n]] else []
  }

  /** Character `k` is kept exactly if it fits behind those kept before it. */
  ghost predicate KeptIfFits(cs: string, kept: seq<bool>, k: nat)
    requires |kept| == |cs| && k < |cs|
  {
    kept[k] <==> |Encode(Selected(cs[..k], kept[..k]))| + |EncodeChar(cs[k])| <= NAME_CAPACITY
  }

  ghost predicate KeepsWhatFits(cs: string, kept: seq<bool>) {
    |kept| == |cs| && forall k: nat | k < |cs| :: KeptIfFits(cs, kept, k)
  }

  lemma {:induction false} PushEachAppend(name: Name, cs: string, c: char)
    ensures PushEach(name, cs + [c]) == Push(PushEach(name, cs), c)
    decreases cs
  {
    if cs != [] {
      assert (cs + [c])[0] == cs[0] && (cs + [c])[1..] == cs[1..] + [c];
      PushEachAppend(Push(name, cs[0]), cs[1..], c);
    }
  }

  lemma KeptIfFitsBefore(cs: string, kept: seq<bool>, n: nat, k: nat)
    requires |kept| == |cs| && k < n <= |cs|
    ensures KeptIfFits(cs[..n], kept[..n], k) == KeptIfFits(cs, kept, k)
  {
    assert cs[..n][..k] == cs[..k] && kept[..n][..k] == kept[..k];
  }

  lemma KeepsWhatFitsMore(cs: string, kept: seq<bool>)
    requires cs != [] && |kept| == |cs|
    ensures var n := |cs| - 1;
            KeepsWhatFits(cs, kept) <==> KeepsWhatFits(cs[..n], kept[..n]) && KeptIfFits(cs, kept, n)
  {
    var n := |cs| - 1;
    forall k: nat | k < n
      ensures KeptIfFits(cs[..n], kept[..n], k) == KeptIfFits(cs, kept, k)
    {
      KeptIfFitsBefore(cs, kept, n, k);
    }
  }

  /** Pushing one character keeps it exactly if it fits. */
  lemma PushSelects(name: Name, c: char, keep: bool)
    requires keep <==> Fits(name, c)
    ensures Push(name, c) == name + if keep then [c] else []
  {}

  /** Pushing one character after the other keeps what fits. */
  lemma {:induction false} PushEachSelects(cs: string, kept: seq<bool>)
    requires KeepsWhatFits(cs, kept)
    ensures PushEach("", cs) == Selected(cs, kept)
  {
    if cs != [] {
      var n := |cs| - 1;
      var init, c := cs[..n], cs[n];
      KeepsWhatFitsMore(cs, kept);
      PushEachSelects(init, kept[..n]);
      PushEachAppend("", init, c);
      assert init + [c] == cs;
      PushSelects(PushEach("", init), c, kept[n]);
    }
  }

  /** There is a choice that keeps what fits. */
  lemma {:induction false} SomeChoiceFits(cs: string) returns (kept: seq<bool>)
    ensures KeepsWhatFits(cs, kept)
  {
    if cs == [] {
      kept := [];
    } else {
      var n := |cs| - 1;
      var before := SomeChoiceFits(cs[..n]);
      var fits := |Encode(Selected(cs[..n], before))| + |EncodeChar(cs[n])| <= NAME_CAPACITY;
      kept := before + [fits];
      assert kept[..n] == before;
      KeepsWhatFitsMore(cs, kept);
    }
  }

  /** Characters of one byte fill the name one by one. */
  lemma {:induction false} PushEachAscii(cs: string)
    requires |cs| <= NAME_CAPACITY && forall i | 0 <= i < |cs| :: cs[i] as int < 0x80
    ensures PushEach("", cs) == cs
  {
    AsciiLength(cs);
    PushEachRestores("", cs);
    assert "" + cs == cs;
  }
}
