/**
 * The character codec of the text generator (gen_text.py): the seed text is
 * lower-cased, checked against the 27 allowed characters, and encoded as
 * `ord(c) % 32`; a sampled class index i is printed as `chr(i + 96)`, or as a
 * blank for class 0.
 */
module Codec {
  import opened Wrappers
  import opened Arith

  /** The characters the models know, in class order: blank, then 'a' to 'z'. */
  const Allowed: string := " abcdefghijklmnopqrstuvwxyz"

  /** A class index of the 27-way output of a network. */
  type Symbol = i: int | 0 <= i < 27

  /** `str.lower` on one character of byte text: only 'A' to 'Z' change. */
  function Lower(c: char): (r: char)
    ensures !('A' <= r <= 'Z')
    ensures 'A' <= c <= 'Z' ==> 'a' <= r <= 'z' && r as int - c as int == 'a' as int - 'A' as int
    ensures !('A' <= c <= 'Z') ==> r == c
  {
    if 'A' <= c <= 'Z' then (c as int + 32) as char else c
  }

  /** `str.lower` on a whole text: same length, every character lowered, no upper-case letter left. */
  function LowerText(text: string): (r: string)
    ensures |r| == |text|
    ensures forall k | 0 <= k < |text| :: r[k] == Lower(text[k]) && !('A' <= r[k] <= 'Z')
  {
    seq(|text|, k requires 0 <= k < |text| => Lower(text[k]))
  }

  /** The blank and the lower-case letters. */
  predicate IsAllowed(c: char) {
    c == ' ' || 'a' <= c <= 'z'
  }

  /** The allowed characters are exactly the blank and the lower-case letters. */
  lemma AllowedChars(c: char)
    ensures c in Allowed <==> IsAllowed(c)
  {
    if c in Allowed {
      var k :| 0 <= k < |Allowed| && Allowed[k] == c;
      AllowedAt(k);
    }
  }

  /** Position k of the allowed string holds the character of class k. */
  lemma AllowedAt(k: int)
    requires 0 <= k < 27
    ensures |Allowed| == 27
    ensures Allowed[k] == if k == 0 then ' ' else (k + 96) as char
  {
  }

  /** Encoding of one character as in the seed-text comprehension. */
  function Encode(c: char): (i: int)
    ensures IsAllowed(c) ==> 0 <= i < 27 && Allowed[i] == c
  {
    var i := c as int % 32;
    assert IsAllowed(c) ==> 0 <= i < 27 && Allowed[i] == c by {
      if IsAllowed(c) { AllowedAt(i); }
    }
    i
  }

  /** The character printed for a sampled class. */
  function Decode(i: Symbol): (c: char)
    ensures IsAllowed(c) && c == Allowed[i]
  {
    AllowedAt(i);
    if i > 0 then (i + 96) as char else ' '
  }

  /** Decoding undoes encoding on every allowed character. */
  lemma DecodeEncode(c: char)
    requires IsAllowed(c)
    ensures Decode(Encode(c)) == c
  {
  }

  /** Encoding undoes decoding on every class: the codec is a bijection. */
  lemma EncodeDecode(i: Symbol)
    ensures Encode(Decode(i)) == i
  {
    if i == 0 {
      ModUnique(Decode(i) as int, 1, 0, 32);
    } else {
      ModUnique(Decode(i) as int, 3, i, 32);
    }
  }

  /**
   * The membership scan over the lowered text: it stops at the first
   * character outside the allowed set.
   */
  method CheckText(text: string) returns (ok: bool)
    ensures ok <==> forall k | 0 <= k < |text| :: IsAllowed(text[k])
  {
    for k := 0 to |text|
      invariant forall j | 0 <= j < k :: IsAllowed(text[j])
    {
      AllowedChars(text[k]);
      if text[k] !in Allowed {
        return false;
      }
    }
    return true;
  }

  /** Encoding of a checked text, one class per character. */
  function EncodeText(text: string): (syms: seq<Symbol>)
    requires forall k | 0 <= k < |text| :: IsAllowed(text[k])
    ensures |syms| == |text|
    ensures forall k | 0 <= k < |text| :: Allowed[syms[k]] == text[k]
  {
    seq(|text|, k requires 0 <= k < |text| => Encode(text[k]))
  }

  /** The characters printed for a sequence of classes. */
  function DecodeText(syms: seq<Symbol>): (text: string)
    ensures |text| == |syms|
    ensures forall k | 0 <= k < |syms| :: IsAllowed(text[k]) && text[k] == Allowed[syms[k]]
  {
    seq(|syms|, k requires 0 <= k < |syms| => Decode(syms[k]))
  }

  /** A checked text comes back unchanged from encoding and decoding. */
  lemma TextRoundTrip(text: string)
    requires forall k | 0 <= k < |text| :: IsAllowed(text[k])
    ensures DecodeText(EncodeText(text)) == text
  {
    var back := DecodeText(EncodeText(text));
    forall k | 0 <= k < |text|
      ensures back[k] == text[k]
    {
      DecodeEncode(text[k]);
    }
  }

  /**
   * The seed text as the generator prepares it: lower-cased, rejected as a
   * whole if any character is outside the allowed set, and otherwise encoded
   * one class per character for the network.
   */
  method PrepareSeed(raw: string) returns (r: Option<seq<Symbol>>)
    ensures r.Some? <==> forall k | 0 <= k < |raw| :: IsAllowed(Lower(raw[k]))
    ensures r.Some? ==> |r.value| == |raw| && DecodeText(r.value) == LowerText(raw)
  {
    var text := LowerText(raw);
    assert forall k | 0 <= k < |raw| :: text[k] == Lower(raw[k]);
    var ok := CheckText(text);
    if !ok {
      return None;
    }
    TextRoundTrip(text);
    return Some(EncodeText(text));
  }

  /** Upper-case letters are folded and accepted, as the blank and the lower-case letters are. */
  lemma SeedAcceptsLetters(c: char)
    requires c == ' ' || 'a' <= c <= 'z' || 'A' <= c <= 'Z'
    ensures IsAllowed(Lower(c))
    ensures 'A' <= c <= 'Z' ==> Encode(Lower(c)) == c as int - 64
  {
  }
}
