/** UTF-8 as RFC 3629 section 3 defines it, and the proof that the decoder accepts exactly its texts. */
module Utf8 {
  import opened Wrappers
  import opened Domain

  type Byte = b: int | 0 <= b < 0x100

  function EncodeChar(c: char): (b: seq<Byte>)
    ensures 1 <= |b| <= 4
  {
    var n := c as int;
    if n < 0x80 then [n]
    else if n < 0x800 then [0xC0 + n / 0x40, 0x80 + n % 0x40]
    else if n < 0x10000 then [0xE0 + n / 0x40 / 0x40, 0x80 + n / 0x40 % 0x40, 0x80 + n % 0x40]
    else [0xF0 + n / 0x40 / 0x40 / 0x40, 0x80 + n / 0x40 / 0x40 % 0x40, 0x80 + n / 0x40 % 0x40, 0x80 + n % 0x40]
  }

  function Encode(s: string): seq<Byte> {
    if s == "" then [] else EncodeChar(s[0]) + Encode(s[1..])
  }

  predicate Trails(b: seq<Byte>, count: nat) {
    |b| > count && forall i | 1 <= i <= count :: 0x80 <= b[i] < 0xC0
  }

  /** Appends the six bits of a trailing byte. */
  function Join(high: int, trail: Byte): int { high * 0x40 + (trail as int - 0x80) }

  /** The first character of a non-empty text; overlong forms and surrogates are malformed. */
  function DecodeChar(b: seq<Byte>): Option<char>
    requires |b| > 0
  {
    if b[0] < 0x80 then Some(b[0] as char)
    else if 0xC2 <= b[0] < 0xE0 && Trails(b, 1) then
      Some(Join(b[0] as int - 0xC0, b[1]) as char)
    else if 0xE0 <= b[0] < 0xF0 && Trails(b, 2)
            && (b[0] == 0xE0 ==> b[1] >= 0xA0) && (b[0] == 0xED ==> b[1] < 0xA0) then
      Some(Join(Join(b[0] as int - 0xE0, b[1]), b[2]) as char)
    else if 0xF0 <= b[0] < 0xF5 && Trails(b, 3)
            && (b[0] == 0xF0 ==> b[1] >= 0x90) && (b[0] == 0xF4 ==> b[1] < 0x90) then
      Some(Join(Join(Join(b[0] as int - 0xF0, b[1]), b[2]), b[3]) as char)
    else None
  }

  function Decode(b: seq<Byte>): Option<string>
    decreases |b|
  {
    if b == [] then Some("")
    else
      var head := DecodeChar(b);
      if head.None? || |EncodeChar(head.value)| > |b| then None
      else
        var rest := Decode(b[|EncodeChar(head.value)|..]);
        if rest.None? then None else Some([head.value] + rest.value)
  }

  lemma Split(high: int, trail: Byte)
    requires 0x80 <= trail < 0xC0
    ensures Join(high, trail) / 0x40 == high && 0x80 + Join(high, trail) % 0x40 == trail
  {
  }

  lemma DecodeCharSound(b: seq<Byte>)
    requires |b| > 0 && DecodeChar(b).Some?
    ensures EncodeChar(DecodeChar(b).value) <= b
  {
    if b[0] < 0x80 {
    } else if b[0] < 0xE0 {
      Split(b[0] as int - 0xC0, b[1]);
    } else if b[0] < 0xF0 {
      Split(b[0] as int - 0xE0, b[1]);
      Split(Join(b[0] as int - 0xE0, b[1]), b[2]);
    } else {
      Split(b[0] as int - 0xF0, b[1]);
      Split(Join(b[0] as int - 0xF0, b[1]), b[2]);
      Split(Join(Join(b[0] as int - 0xF0, b[1]), b[2]), b[3]);
    }
  }

  lemma DecodeCharComplete(b: seq<Byte>, c: char)
    requires EncodeChar(c) <= b
    ensures DecodeChar(b) == Some(c)
  {
    var e, n := EncodeChar(c), c as int;
    assert forall i | 0 <= i < |e| :: e[i] == b[i];
  }

  /** Decoding is sound and complete: it yields the one text whose encoding these bytes are. */
  lemma {:induction false} DecodeExact(b: seq<Byte>, s: string)
    ensures Decode(b) == Some(s) <==> Encode(s) == b
    decreases |b|
  {
    if b == [] {
      assert s != "" ==> |Encode(s)| > 0;
    } else if s == "" {
    } else {
      var e := EncodeChar(s[0]);
      if e <= b {
        DecodeCharComplete(b, s[0]);
        DecodeExact(b[|e|..], s[1..]);
        assert b == e + b[|e|..] && s == [s[0]] + s[1..];
      } else {
        if DecodeChar(b).Some? {
          DecodeCharSound(b);
        }
        assert Encode(s)[..|e|] == e;
      }
    }
  }

  /** `str::len` counts the bytes of the encoding. */
  lemma {:induction false} LengthIsByteLength(s: string)
    ensures |Encode(s)| == ByteLength(s)
  {
    if s != "" {
      LengthIsByteLength(s[..|s| - 1]);
      EncodeAppend(s[..|s| - 1], s[|s| - 1]);
      assert s == s[..|s| - 1] + [s[|s| - 1]];
    }
  }

  lemma {:induction false} EncodeAppend(s: string, c: char)
    ensures Encode(s + [c]) == Encode(s) + EncodeChar(c)
  {
    if s == "" {
      assert s + [c] == [c] && [c][1..] == "";
    } else {
      EncodeAppend(s[1..], c);
      assert (s + [c])[1..] == s[1..] + [c];
    }
  }
}
