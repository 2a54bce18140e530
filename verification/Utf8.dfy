/**
 UTF-8 (section 3 of RFC 3629) and the truncation of command output to a byte limit
 (`_truncate_utf8` in src/ai_hq/host_helper/executor.py).
 */
module Utf8 {

  type Byte = n: int | 0 <= n < 256

  function EncodeChar(c: char): (e: seq<Byte>)
    ensures 1 <= |e| <= 4
  {
    var n := c as int;
    if n < 0x80 then [n]
    else if n < 0x800 then [0xC0 + n / 64, 0x80 + n % 64]
    else if n < 0x10000 then [0xE0 + n / 64 / 64, 0x80 + n / 64 % 64, 0x80 + n % 64]
    else [0xF0 + n / 64 / 64 / 64, 0x80 + n / 64 / 64 % 64, 0x80 + n / 64 % 64, 0x80 + n % 64]
  }

  function Encode(s: string): seq<Byte> {
    if s == "" then [] else EncodeChar(s[0]) + Encode(s[1..])
  }

  predicate Follows(b: Byte) {
    0x80 <= b < 0xC0
  }

  /** The length of the well-formed sequence the bytes start with; 0 if they start with none. */
  function SequenceLength(b: seq<Byte>): (n: nat)
    ensures n <= |b|
  {
    if b == [] then 0
    else if b[0] < 0x80 then 1
    else if 0xC2 <= b[0] < 0xE0 then (if |b| >= 2 && Follows(b[1]) then 2 else 0)
    else if 0xE0 <= b[0] < 0xF0 then
      (if |b| >= 3 && Follows(b[1]) && Follows(b[2]) && (b[0] == 0xE0 ==> b[1] >= 0xA0) && (b[0] == 0xED ==> b[1] < 0xA0) then 3 else 0)
    else if 0xF0 <= b[0] < 0xF5 then
      (if |b| >= 4 && Follows(b[1]) && Follows(b[2]) && Follows(b[3]) && (b[0] == 0xF0 ==> b[1] >= 0x90)
          && (b[0] == 0xF4 ==> b[1] < 0x90) then 4 else 0)
    else 0
  }

  /** A number from its leading bits and its last six. */
  function Join(lead: int, last: int): int {
    lead * 64 + last
  }

  /** The character of the well-formed sequence at the start. */
  function FirstChar(b: seq<Byte>): char
    requires SequenceLength(b) > 0
  {
    var lead: int := b[0];
    var n := match SequenceLength(b)
             case 1 => lead
             case 2 => Join(lead - 0xC0, b[1] as int - 0x80)
             case 3 => Join(Join(lead - 0xE0, b[1] as int - 0x80), b[2] as int - 0x80)
             case _ => Join(Join(Join(lead - 0xF0, b[1] as int - 0x80), b[2] as int - 0x80), b[3] as int - 0x80);
    n as char
  }

  /**
   `decode("utf-8", errors="ignore")`: bytes that start no well-formed sequence are skipped. Skipping them one at a time
   drops the same bytes as skipping a malformed sequence at once, since no following byte starts a sequence.
   */
  function Decode(b: seq<Byte>): string {
    if b == [] then ""
    else
      var n := SequenceLength(b);
      if n == 0 then Decode(b[1..]) else [FirstChar(b)] + Decode(b[n..])
  }

  /** `_truncate_utf8` */
  function Truncate(text: string, limit: nat): (string, bool) {
    var encoded := Encode(text);
    if |encoded| <= limit then (text, false) else (Decode(encoded[..limit]), true)
  }

  // ---------- decoding ----------

  lemma JoinSplits(n: int)
    ensures Join(n / 64, n % 64) == n
  {
  }

  lemma EncodedSequence(c: char, x: seq<Byte>)
    ensures SequenceLength(EncodeChar(c) + x) == |EncodeChar(c)|
    ensures FirstChar(EncodeChar(c) + x) == c
  {
    var n := c as int;
    JoinSplits(n);
    JoinSplits(n / 64);
    JoinSplits(n / 64 / 64);
  }

  /** A character cut short starts no sequence, and neither do its following bytes. */
  lemma {:induction false} CutChar(c: char, k: nat, from: nat)
    requires from <= k < |EncodeChar(c)|
    ensures Decode(EncodeChar(c)[from..k]) == ""
    decreases k - from
  {
    var b := EncodeChar(c)[from..k];
    if from < k {
      assert SequenceLength(b) == 0;
      assert b[1..] == EncodeChar(c)[from + 1..k];
      CutChar(c, k, from + 1);
    }
  }

  lemma {:induction false} DecodeEncoded(s: string, x: seq<Byte>)
    ensures Decode(Encode(s) + x) == s + Decode(x)
  {
    hide EncodeChar, SequenceLength, FirstChar;
    if s == "" {
      assert Encode(s) + x == x;
    } else {
      var e := EncodeChar(s[0]);
      assert Encode(s) + x == e + (Encode(s[1..]) + x);
      EncodedSequence(s[0], Encode(s[1..]) + x);
      assert (e + (Encode(s[1..]) + x))[|e|..] == Encode(s[1..]) + x;
      DecodeEncoded(s[1..], x);
      assert [s[0]] + (s[1..] + Decode(x)) == s + Decode(x);
    }
  }

  /** Decoding undoes encoding. */
  lemma RoundTrip(s: string)
    ensures Decode(Encode(s)) == s
  {
    assert Encode(s) + [] == Encode(s);
    DecodeEncoded(s, []);
  }

  lemma {:induction false} EncodeConcat(s: string, t: string)
    ensures Encode(s + t) == Encode(s) + Encode(t)
  {
    hide EncodeChar;
    if s == "" {
      assert s + t == t;
    } else {
      assert (s + t)[1..] == s[1..] + t;
      EncodeConcat(s[1..], t);
    }
  }

  // ---------- truncation ----------

  /** The number of whole characters whose encoding fits the limit. */
  function Fitting(text: string, limit: nat): (k: nat)
    ensures k <= |text|
  {
    if text == "" || |EncodeChar(text[0])| > limit then 0
    else 1 + Fitting(text[1..], limit - |EncodeChar(text[0])|)
  }

  lemma {:induction false} FittingFits(text: string, limit: nat)
    ensures var k := Fitting(text, limit);
            && |Encode(text[..k])| <= limit
            && (k < |text| ==> limit < |Encode(text[..k])| + |EncodeChar(text[k])|)
  {
    hide EncodeChar;
    if text != "" && |EncodeChar(text[0])| <= limit {
      var k := Fitting(text, limit);
      FittingFits(text[1..], limit - |EncodeChar(text[0])|);
      assert text[..k][1..] == text[1..][..k - 1];
    }
  }

  /** Longer prefixes have longer encodings. */
  lemma PrefixLength(text: string, j: nat, k: nat)
    requires j < k <= |text|
    ensures |Encode(text[..j])| + |EncodeChar(text[j])| <= |Encode(text[..k])|
  {
    hide EncodeChar;
    assert text[..k] == text[..j] + text[j..k];
    EncodeConcat(text[..j], text[j..k]);
  }

  /** The result is the longest prefix of characters whose encoding fits; the flag says whether anything is missing. */
  lemma TruncateIsLongestPrefix(text: string, limit: nat)
    ensures var (r, truncated) := Truncate(text, limit);
            && r <= text && |Encode(r)| <= limit
            && (forall k :: |r| < k <= |text| ==> |Encode(text[..k])| > limit)
            && (truncated <==> r != text)
  {
    hide EncodeChar, Decode;
    var k := Fitting(text, limit);
    FittingFits(text, limit);
    assert text[..|text|] == text;
    forall j | k < j <= |text|
      ensures |Encode(text[..j])| > limit
    {
      PrefixLength(text, k, j);
    }
    if k < |text| {
      CutEncoding(text, limit, k);
      assert text[..k] <= text && |text[..k]| == k;
    }
  }

  /** Cutting the encoding inside character k and decoding leaves the first k characters. */
  lemma CutEncoding(text: string, limit: nat, k: nat)
    requires k < |text| && |Encode(text[..k])| <= limit < |Encode(text[..k])| + |EncodeChar(text[k])|
    ensures limit < |Encode(text)| && Decode(Encode(text)[..limit]) == text[..k]
  {
    hide EncodeChar, Decode;
    var head, e, tail := Encode(text[..k]), EncodeChar(text[k]), Encode(text[k + 1..]);
    assert text == text[..k] + text[k..] && text[k..][1..] == text[k + 1..];
    EncodeConcat(text[..k], text[k..]);
    assert Encode(text) == head + (e + tail);
    assert Encode(text)[..limit] == head + e[0..limit - |head|];
    CutChar(text[k], limit - |head|, 0);
    DecodeEncoded(text[..k], e[0..limit - |head|]);
    assert text[..k] + "" == text[..k];
  }
}
