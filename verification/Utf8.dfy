/** The UTF-8 bytes of a source text, and why lines can be counted in either. */
module Utf8 {
  import opened Common
  import opened SourceMaps
  import opened Text

  function EncodeChar(c: char): (bytes: seq<byte>)
    ensures NEWLINE in bytes <==> c == '\n'
  {
    var n := c as int;
    if n < 0x80 then [n]
    else if n < 0x800 then [0xC0 + n / 0x40, 0x80 + n % 0x40]
    else if n < 0x1_0000 then [0xE0 + n / 0x1000, 0x80 + n / 0x40 % 0x40, 0x80 + n % 0x40]
    else [0xF0 + n / 0x4_0000, 0x80 + n / 0x1000 % 0x40, 0x80 + n / 0x40 % 0x40, 0x80 + n % 0x40]
  }

  function Encode(text: string): seq<byte> {
    if text == [] then [] else Encode(Front(text)) + EncodeChar(Last(text))
  }

  lemma {:induction false} EncodeConcat(a: string, b: string)
    ensures Encode(a + b) == Encode(a) + Encode(b)
  {
    hide EncodeChar;
    if b == [] {
      assert a + b == a;
    } else {
      EncodeConcat(a, Front(b));
      assert Front(a + b) == a + Front(b);
    }
  }

  lemma {:induction false} CountConcat(a: seq<byte>, b: seq<byte>)
    ensures CountNewlines(a + b) == CountNewlines(a) + CountNewlines(b)
  {
    if b == [] {
      assert a + b == a;
    } else {
      CountConcat(a, Front(b));
      assert Front(a + b) == a + Front(b);
    }
  }

  lemma {:induction false} NoneCounted(bytes: seq<byte>)
    requires NEWLINE !in bytes
    ensures CountNewlines(bytes) == 0
  {
    if bytes != [] {
      NoneCounted(Front(bytes));
    }
  }

  lemma {:induction false} NoneEncoded(text: string)
    requires '\n' !in text
    ensures CountNewlines(Encode(text)) == 0
  {
    if text != [] {
      NoneEncoded(Front(text));
      NoneCounted(EncodeChar(Last(text)));
      CountConcat(Encode(Front(text)), EncodeChar(Last(text)));
    }
  }

  /** Counting newline bytes counts the lines of the text: no other character has such a byte. */
  lemma {:induction false} LinesSurviveEncoding(text: string)
    ensures SourceLineCount(Encode(text)) == |Split(text, '\n')|
    decreases |text|
  {
    hide Encode, EncodeChar, CountNewlines, IndexOf;
    IndexOfFacts(text, '\n');
    var i := IndexOf(text, '\n');
    if i == |text| {
      NoneEncoded(text);
    } else {
      var head, tail := text[..i], text[i + 1..];
      LinesSurviveEncoding(tail);
      NoneEncoded(head);
      assert text == head + ("\n" + tail);
      EncodeConcat(head, "\n" + tail);
      EncodeConcat("\n", tail);
      CountConcat(Encode(head), Encode("\n") + Encode(tail));
      CountConcat(Encode("\n"), Encode(tail));
      OneNewline();
    }
  }

  lemma OneNewline()
    ensures CountNewlines(Encode("\n")) == 1
  {
    assert Front("\n") == [] && EncodeChar('\n') == [NEWLINE];
    assert Encode("\n") == [NEWLINE] && Front([NEWLINE]) == [];
  }

  // ----- Decoding -----

  /** A continuation byte carries six bits. */
  predicate Continues(b: byte) {
    0x80 <= b < 0xC0
  }

  /** The bits of a byte above its marker. */
  function Bits(b: byte, marker: nat): (bits: nat)
    requires marker <= b
  {
    b as int - marker
  }

  /** The code point at the start of `bytes` and its length, by the bit patterns of section 3 of RFC 3629. */
  function DecodeFirst(bytes: seq<byte>): Option<(nat, nat)> {
    if bytes == [] then None
    else if bytes[0] < 0x80 then Some((Bits(bytes[0], 0), 1))
    else if 0xC0 <= bytes[0] < 0xE0 && |bytes| >= 2 && Continues(bytes[1]) then
      Some((Bits(bytes[0], 0xC0) * 0x40 + Bits(bytes[1], 0x80), 2))
    else if 0xE0 <= bytes[0] < 0xF0 && |bytes| >= 3 && Continues(bytes[1]) && Continues(bytes[2]) then
      Some((Bits(bytes[0], 0xE0) * 0x1000 + Bits(bytes[1], 0x80) * 0x40 + Bits(bytes[2], 0x80), 3))
    else if 0xF0 <= bytes[0] < 0xF8 && |bytes| >= 4 && Continues(bytes[1]) && Continues(bytes[2]) && Continues(bytes[3]) then
      Some((Bits(bytes[0], 0xF0) * 0x4_0000 + Bits(bytes[1], 0x80) * 0x1000 + Bits(bytes[2], 0x80) * 0x40 + Bits(bytes[3], 0x80), 4))
    else None
  }

  function Decode(bytes: seq<byte>): Option<seq<nat>>
    decreases |bytes|
  {
    if bytes == [] then Some([])
    else
      match DecodeFirst(bytes)
      case None => None
      case Some((point, length)) =>
        match Decode(bytes[length..])
        case None => None
        case Some(rest) => Some([point] + rest)
  }

  function CodePoints(text: string): seq<nat> {
    if text == [] then [] else [text[0] as nat] + CodePoints(text[1..])
  }

  lemma FirstDecodes(c: char, rest: seq<byte>)
    ensures DecodeFirst(EncodeChar(c) + rest) == Some((c as nat, |EncodeChar(c)|))
  {
    var n := c as nat;
    SixBits(n);
    SixBits(n / 0x40);
    SixBits(n / 0x1000);
    assert n / 0x40 / 0x40 == n / 0x1000 && n / 0x1000 / 0x40 == n / 0x4_0000;
  }

  lemma SixBits(n: nat)
    ensures n == n / 0x40 * 0x40 + n % 0x40 && n % 0x40 < 0x40
  {
  }

  lemma {:induction false} EncodeHead(text: string)
    requires text != []
    ensures Encode(text) == EncodeChar(text[0]) + Encode(text[1..])
  {
    hide EncodeChar;
    EncodeConcat([text[0]], text[1..]);
    assert [text[0]] + text[1..] == text;
    assert Front([text[0]]) == [] && Encode([text[0]]) == [] + EncodeChar(text[0]);
  }

  /** Decoding the bytes of a text gives its characters back. */
  lemma {:induction false} EncodingRoundTrip(text: string)
    ensures Decode(Encode(text)) == Some(CodePoints(text))
  {
    hide EncodeChar, DecodeFirst;
    if text != [] {
      EncodeHead(text);
      FirstDecodes(text[0], Encode(text[1..]));
      EncodingRoundTrip(text[1..]);
      var bytes := EncodeChar(text[0]) + Encode(text[1..]);
      assert bytes[|EncodeChar(text[0])|..] == Encode(text[1..]);
      assert bytes != [] by { NotEmpty(text[0]); }
    }
  }

  lemma NotEmpty(c: char)
    ensures EncodeChar(c) != []
  {
  }
}
