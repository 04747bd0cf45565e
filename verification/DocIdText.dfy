/** Document identifiers as text, and as the 16 bytes the prune queue keeps of each. */
module DocIdText {
  import opened Chain

  const UUID_SIZE := 16
  const PREFIX := "bae"

  type Uuid = b: Bytes | |b| == 16 witness [0, 0, 0, 0, 0, 0, 0, 0, 0, 0, 0, 0, 0, 0, 0, 0]

  // ---------------------------------------------------------------- hexadecimal

  function Digit(v: int): char
    requires 0 <= v < 16
  {
    if v < 10 then '0' + v as char else 'a' + (v - 10) as char
  }

  function Value(c: char): Option<int> {
    if '0' <= c <= '9' then Some(c as int - '0' as int)
    else if 'a' <= c <= 'f' then Some(c as int - 'a' as int + 10)
    else if 'A' <= c <= 'F' then Some(c as int - 'A' as int + 10)
    else None
  }

  predicate LowerDigit(c: char) {
    '0' <= c <= '9' || 'a' <= c <= 'f'
  }

  predicate LowerHex(s: string) {
    forall i :: 0 <= i < |s| ==> LowerDigit(s[i])
  }

  function EncodeByte(b: Byte): string {
    [Digit(b / 16), Digit(b % 16)]
  }

  function Encode(bytes: Bytes): string {
    if bytes == [] then "" else EncodeByte(bytes[0]) + Encode(bytes[1..])
  }

  /** Pairs of digits of either case; anything else is refused. */
  function Decode(s: string): Option<Bytes> {
    if s == "" then Some([])
    else if |s| == 1 || Value(s[0]).None? || Value(s[1]).None? then None
    else
      var rest := Decode(s[2..]);
      if rest.None? then None else Some([Value(s[0]).value * 16 + Value(s[1]).value] + rest.value)
  }

  lemma DigitValue(v: int)
    requires 0 <= v < 16
    ensures Value(Digit(v)) == Some(v) && LowerDigit(Digit(v))
  {
  }

  lemma ValueDigit(c: char)
    requires LowerDigit(c)
    ensures Value(c).Some? && 0 <= Value(c).value < 16 && Digit(Value(c).value) == c
  {
  }

  lemma {:induction false} EncodeDecodes(bytes: Bytes)
    ensures Decode(Encode(bytes)) == Some(bytes) && |Encode(bytes)| == 2 * |bytes| && LowerHex(Encode(bytes))
  {
    if bytes != [] {
      EncodeDecodes(bytes[1..]);
      var b := bytes[0];
      DigitValue(b / 16);
      DigitValue(b % 16);
      assert Encode(bytes)[2..] == Encode(bytes[1..]);
      assert bytes == [b] + bytes[1..];
    }
  }

  lemma PairReencodes(x: char, y: char)
    requires LowerDigit(x) && LowerDigit(y)
    ensures Value(x).Some? && Value(y).Some?
    ensures var v := Value(x).value * 16 + Value(y).value; 0 <= v < 256 && EncodeByte(v) == [x, y]
  {
    ValueDigit(x);
    ValueDigit(y);
    Nibbles(Value(x).value, Value(y).value);
  }

  lemma Nibbles(a: int, b: int)
    requires 0 <= a < 16 && 0 <= b < 16
    ensures 0 <= a * 16 + b < 256 && (a * 16 + b) / 16 == a && (a * 16 + b) % 16 == b
  {
  }

  lemma {:induction false} LowerHexReencodes(s: string)
    requires LowerHex(s) && |s| % 2 == 0
    ensures Decode(s).Some? && Encode(Decode(s).value) == s && 2 * |Decode(s).value| == |s|
    decreases |s|
  {
    if s != "" {
      PairReencodes(s[0], s[1]);
      LowerHexReencodes(s[2..]);
      assert Decode(s).value[1..] == Decode(s[2..]).value;
      assert s == [s[0], s[1]] + s[2..];
    }
  }

  lemma {:induction false} DecodeSize(s: string)
    requires Decode(s).Some?
    ensures 2 * |Decode(s).value| == |s|
    decreases |s|
  {
    if s != "" {
      DecodeSize(s[2..]);
    }
  }

  /** A hexadecimal digit of either case. */
  predicate HexDigit(c: char) {
    '0' <= c <= '9' || 'a' <= c <= 'f' || 'A' <= c <= 'F'
  }

  /** Text decodes exactly when it is an even number of hexadecimal digits of either case. */
  lemma {:induction false} DecodeIff(s: string)
    ensures Decode(s).Some? <==> |s| % 2 == 0 && forall i :: 0 <= i < |s| ==> HexDigit(s[i])
    decreases |s|
  {
    if |s| > 1 {
      DecodeIff(s[2..]);
      assert forall i :: 0 <= i < |s[2..]| ==> s[2..][i] == s[i + 2];
      assert s == [s[0], s[1]] + s[2..];
    }
  }

  /** The other case of a letter. */
  predicate OtherCase(c: char, d: char) {
    ('a' <= c <= 'f' && d as int == c as int - 32) || ('A' <= c <= 'F' && d as int == c as int + 32)
  }

  /** The case of its letters does not change what a text decodes to. */
  lemma {:induction false} DecodeIgnoresCase(s: string, t: string)
    requires |s| == |t| && forall i :: 0 <= i < |s| ==> s[i] == t[i] || OtherCase(s[i], t[i])
    ensures Decode(s) == Decode(t)
    decreases |s|
  {
    if |s| > 1 {
      assert s[0] == t[0] || OtherCase(s[0], t[0]);
      assert s[1] == t[1] || OtherCase(s[1], t[1]);
      DecodeIgnoresCase(s[2..], t[2..]);
    } else if |s| == 1 {
      assert s != "" && t != "";
    }
  }

  // ---------------------------------------------------------------- the text form

  /** Everything but the hyphens. */
  function Strip(s: string): string {
    if s == "" then "" else (if s[0] == '-' then "" else [s[0]]) + Strip(s[1..])
  }

  /** What follows the first hyphen. */
  function AfterHyphen(s: string): Option<string> {
    if s == "" then None else if s[0] == '-' then Some(s[1..]) else AfterHyphen(s[1..])
  }

  function ParseUuid(s: string): (r: Option<Uuid>) {
    var clean := Strip(s);
    if |clean| != 2 * UUID_SIZE then None
    else
      var bytes := Decode(clean);
      if bytes.None? then None else (DecodeSize(clean); Some(bytes.value))
  }

  function ExtractUuid(docId: string): Option<Uuid> {
    var after := AfterHyphen(docId);
    if after.None? then None else ParseUuid(after.value)
  }

  lemma {:induction false} AfterHyphenIs(s: string, i: nat)
    requires i < |s| && s[i] == '-' && '-' !in s[..i]
    ensures AfterHyphen(s) == Some(s[i + 1..])
    decreases i
  {
    if i > 0 {
      assert s[0] == s[..i][0];
      assert s[1..][..i - 1] == s[..i][1..];
      AfterHyphenIs(s[1..], i - 1);
      assert s[1..][i..] == s[i + 1..];
    }
  }

  lemma {:induction false} NoHyphen(s: string)
    requires '-' !in s
    ensures AfterHyphen(s).None?
    decreases |s|
  {
    if s != "" {
      NoHyphen(s[1..]);
    }
  }

  /** An identifier can be packed exactly when, hyphens aside, 32 hexadecimal digits of either case follow its first hyphen. */
  lemma ExtractIff(docId: string, i: nat)
    requires i < |docId| && docId[i] == '-' && '-' !in docId[..i]
    ensures ExtractUuid(docId).Some? <==>
              var digits := Strip(docId[i + 1..]); |digits| == 32 && forall k :: 0 <= k < |digits| ==> HexDigit(digits[k])
  {
    AfterHyphenIs(docId, i);
    DecodeIff(Strip(docId[i + 1..]));
  }

  /** Without a hyphen it cannot. */
  lemma ExtractNeedsHyphen(docId: string)
    requires '-' !in docId
    ensures ExtractUuid(docId).None?
  {
    NoHyphen(docId);
  }

  function Hyphenated(h: string): string
    requires |h| == 2 * UUID_SIZE
  {
    h[..8] + "-" + h[8..12] + "-" + h[12..16] + "-" + h[16..20] + "-" + h[20..]
  }

  function FormatUuid(u: Uuid): string {
    EncodeDecodes(u);
    Hyphenated(Encode(u))
  }

  function RestoreDocId(u: Uuid): string {
    PREFIX + "-" + FormatUuid(u)
  }

  /** The text form of section 4 of RFC 9562, in lower case, after the document prefix. */
  ghost predicate Canonical(docId: string) {
    && |docId| == 40
    && docId == Joined(docId[4..12], docId[13..17], docId[18..22], docId[23..27], docId[28..])
    && LowerHex(docId[4..12]) && LowerHex(docId[13..17]) && LowerHex(docId[18..22]) && LowerHex(docId[23..27]) && LowerHex(docId[28..])
  }

  function Joined(a: string, b: string, c: string, d: string, e: string): string {
    "bae-" + a + "-" + b + "-" + c + "-" + d + "-" + e
  }

  lemma JoinedFields(a: string, b: string, c: string, d: string, e: string)
    requires |a| == 8 && |b| == |c| == |d| == 4 && |e| == 12
    ensures var s := Joined(a, b, c, d, e);
            |s| == 40 && s[4..12] == a && s[13..17] == b && s[18..22] == c && s[23..27] == d && s[28..] == e
  {
  }

  lemma LowerHexPart(s: string, i: nat, j: nat)
    requires LowerHex(s) && i <= j <= |s|
    ensures LowerHex(s[i..j])
  {
  }

  lemma HyphenatedIsCanonical(h: string)
    requires |h| == 2 * UUID_SIZE && LowerHex(h)
    ensures Canonical("bae-" + Hyphenated(h))
  {
    var s := Joined(h[..8], h[8..12], h[12..16], h[16..20], h[20..]);
    JoinedFields(h[..8], h[8..12], h[12..16], h[16..20], h[20..]);
    LowerHexPart(h, 0, 8);
    LowerHexPart(h, 8, 12);
    LowerHexPart(h, 12, 16);
    LowerHexPart(h, 16, 20);
    LowerHexPart(h, 20, 32);
    assert h[0..8] == h[..8] && h[20..32] == h[20..];
    assert s == "bae-" + Hyphenated(h);
  }

  lemma {:induction false} StripAppend(a: string, b: string)
    ensures Strip(a + b) == Strip(a) + Strip(b)
    decreases |a|
  {
    if a == "" {
      assert a + b == b;
    } else {
      assert (a + b)[1..] == a[1..] + b;
      StripAppend(a[1..], b);
    }
  }

  lemma {:induction false} StripHex(s: string)
    requires LowerHex(s)
    ensures Strip(s) == s
    decreases |s|
  {
    if s != "" {
      StripHex(s[1..]);
      assert s == [s[0]] + s[1..];
    }
  }

  lemma StripHyphen(rest: string)
    ensures Strip("-" + rest) == Strip(rest)
  {
    assert ("-" + rest)[1..] == rest;
  }

  lemma StripField(s: string, rest: string)
    requires LowerHex(s)
    ensures Strip(s + "-" + rest) == s + Strip(rest)
  {
    calc {
      Strip(s + "-" + rest);
      { assert s + "-" + rest == s + ("-" + rest); }
      Strip(s + ("-" + rest));
      { StripAppend(s, "-" + rest); }
      Strip(s) + Strip("-" + rest);
      { StripHex(s); StripHyphen(rest); }
      s + Strip(rest);
    }
  }

  lemma StripHyphenated(h: string)
    requires |h| == 2 * UUID_SIZE && LowerHex(h)
    ensures Strip(Hyphenated(h)) == h
  {
    var e := h[20..];
    var d := h[16..20] + "-" + e;
    var c := h[12..16] + "-" + d;
    var b := h[8..12] + "-" + c;
    assert Hyphenated(h) == h[..8] + "-" + b;
    StripField(h[..8], b);
    StripField(h[8..12], c);
    StripField(h[12..16], d);
    StripField(h[16..20], e);
    StripHex(e);
    assert h == h[..8] + (h[8..12] + (h[12..16] + (h[16..20] + h[20..])));
  }

  lemma AfterPrefix(s: string)
    ensures AfterHyphen("bae-" + s) == Some(s)
  {
    var t := "bae-" + s;
    var t1, t2, t3 := t[1..], t[2..], t[3..];
    assert t1[1..] == t2 && t2[1..] == t3 && t3[1..] == s;
    assert AfterHyphen(t3) == Some(s);
    assert AfterHyphen(t2) == Some(s);
    assert AfterHyphen(t1) == Some(s);
  }

  /** Packing a restored identifier gives the same bytes back, and restored identifiers are canonical. */
  lemma RestoreThenExtract(u: Uuid)
    ensures ExtractUuid(RestoreDocId(u)) == Some(u) && Canonical(RestoreDocId(u))
  {
    EncodeDecodes(u);
    StripHyphenated(Encode(u));
    assert RestoreDocId(u) == "bae-" + FormatUuid(u);
    AfterPrefix(FormatUuid(u));
    HyphenatedIsCanonical(Encode(u));
  }

  lemma FieldsHyphenate(a: string, b: string, c: string, d: string, e: string)
    requires |a| == 8 && |b| == |c| == |d| == 4 && |e| == 12
    ensures Joined(a, b, c, d, e) == "bae-" + Hyphenated(a + b + c + d + e)
  {
    var h := a + b + c + d + e;
    assert h[..8] == a && h[8..12] == b && h[12..16] == c && h[16..20] == d && h[20..] == e;
  }

  lemma CanonicalIsHyphenated(docId: string) returns (h: string)
    requires Canonical(docId)
    ensures |h| == 2 * UUID_SIZE && LowerHex(h) && docId == "bae-" + Hyphenated(h)
  {
    FieldsHyphenate(docId[4..12], docId[13..17], docId[18..22], docId[23..27], docId[28..]);
    h := docId[4..12] + docId[13..17] + docId[18..22] + docId[23..27] + docId[28..];
  }

  /** An identifier comes back unchanged from packing exactly when it is canonical. */
  lemma SurvivesPackingIff(docId: string)
    ensures (ExtractUuid(docId).Some? && RestoreDocId(ExtractUuid(docId).value) == docId) <==> Canonical(docId)
  {
    if Canonical(docId) {
      var h := CanonicalIsHyphenated(docId);
      StripHyphenated(h);
      AfterPrefix(Hyphenated(h));
      LowerHexReencodes(h);
    }
    if ExtractUuid(docId).Some? {
      RestoreThenExtract(ExtractUuid(docId).value);
    }
  }

  // ---------------------------------------------------------------- packed lists

  /** The identifiers a packed list stands for. */
  function Unpacked(packed: Bytes): (ids: seq<string>)
    ensures |ids| == |packed| / UUID_SIZE
  {
    seq(|packed| / UUID_SIZE, i requires 0 <= i < |packed| / UUID_SIZE => RestoreDocId(packed[i * UUID_SIZE..(i + 1) * UUID_SIZE]))
  }

  ghost predicate AllExtract(docIds: seq<string>) {
    forall i :: 0 <= i < |docIds| ==> ExtractUuid(docIds[i]).Some?
  }

  /** Sixteen bytes per identifier, in order; the first invalid identifier fails the list. */
  method PackDocIDs(docIds: seq<string>) returns (packed: Option<Bytes>)
    ensures packed.Some? <==> AllExtract(docIds)
    ensures packed.Some? ==> Packs(packed.value, docIds)
  {
    var bytes: Bytes := [];
    for i := 0 to |docIds|
      invariant AllExtract(docIds[..i]) && Packs(bytes, docIds[..i])
    {
      var uuid := ExtractUuid(docIds[i]);
      if uuid.None? {
        return None;
      }
      PacksMore(bytes, docIds[..i], docIds[i]);
      assert docIds[..i + 1] == docIds[..i] + [docIds[i]];
      bytes := bytes + uuid.value;
    }
    assert docIds[..|docIds|] == docIds;
    return Some(bytes);
  }

  /** These bytes are the identifiers' bytes one after the other. */
  ghost predicate Packs(packed: Bytes, docIds: seq<string>) {
    && |packed| == UUID_SIZE * |docIds|
    && forall i :: 0 <= i < |docIds| ==> ExtractUuid(docIds[i]) == Some(packed[i * UUID_SIZE..(i + 1) * UUID_SIZE])
  }

  lemma PacksMore(packed: Bytes, docIds: seq<string>, docId: string)
    requires Packs(packed, docIds) && ExtractUuid(docId).Some?
    ensures Packs(packed + ExtractUuid(docId).value, docIds + [docId])
  {
    var more := packed + ExtractUuid(docId).value;
    forall i | 0 <= i < |docIds| ensures more[i * UUID_SIZE..(i + 1) * UUID_SIZE] == packed[i * UUID_SIZE..(i + 1) * UUID_SIZE] {
    }
    assert more[|docIds| * UUID_SIZE..(|docIds| + 1) * UUID_SIZE] == ExtractUuid(docId).value;
  }

  method UnpackDocIDs(packed: Bytes) returns (ids: seq<string>)
    ensures ids == Unpacked(packed)
  {
    ids := [];
    for i := 0 to |packed| / UUID_SIZE
      invariant ids == Unpacked(packed)[..i]
    {
      ids := ids + [RestoreDocId(packed[i * UUID_SIZE..(i + 1) * UUID_SIZE])];
    }
  }

  /** A list of canonical identifiers is unpacked as it was packed. */
  lemma PackRoundTrip(packed: Bytes, docIds: seq<string>)
    requires Packs(packed, docIds) && forall i :: 0 <= i < |docIds| ==> Canonical(docIds[i])
    ensures Unpacked(packed) == docIds
  {
    forall i | 0 <= i < |docIds| ensures Unpacked(packed)[i] == docIds[i] {
      SurvivesPackingIff(docIds[i]);
    }
  }
}
