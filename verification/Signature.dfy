/** Checking the signature header of a webhook: a comma-separated list of `t=` and `v1=`
    parts, a tolerance on the time stamp, and a keyed digest (HMAC, RFC 2104 section 2)
    of the stamped payload, given in hexadecimal (RFC 4648 section 8). The digest is a
    parameter here; nothing is assumed about it. */
module Signature {
  import opened Basics

  type byte = x: int | 0 <= x < 256

  /** The digest of a message under a key. */
  type Mac = (string, string) -> seq<byte>

  // ----- Splitting at commas -----

  function Split(s: string): (parts: seq<string>)
    ensures |parts| > 0
  {
    if s == "" then [""]
    else
      var rest := Split(s[1..]);
      if s[0] == ',' then [""] + rest else [[s[0]] + rest[0]] + rest[1..]
  }

  function JoinParts(parts: seq<string>): string
    requires |parts| > 0
  {
    if |parts| == 1 then parts[0] else parts[0] + "," + JoinParts(parts[1..])
  }

  function Trimmed(parts: seq<string>): (r: seq<string>)
    ensures |r| == |parts|
  {
    seq(|parts|, k requires 0 <= k < |parts| => TrimSpace(parts[k]))
  }

  lemma SplitHead(c: char, s: string)
    ensures var rest := Split(s);
            Split([c] + s) == if c == ',' then [""] + rest else [[c] + rest[0]] + rest[1..]
  {
    assert ([c] + s)[1..] == s;
  }

  lemma {:induction false} SplitPrefix(a: string, s: string)
    requires ',' !in a
    ensures Split(a + s) == [a + Split(s)[0]] + Split(s)[1..]
  {
    hide Split;
    if a == "" {
      assert a + s == s && a + Split(s)[0] == Split(s)[0];
    } else {
      SplitPrefix(a[1..], s);
      assert a + s == [a[0]] + (a[1..] + s);
      SplitHead(a[0], a[1..] + s);
      assert [a[0]] + (a[1..] + Split(s)[0]) == a + Split(s)[0];
    }
  }

  /** Splitting undoes joining of comma-free parts. */
  lemma {:induction false} SplitJoin(parts: seq<string>)
    requires |parts| > 0 && forall k :: 0 <= k < |parts| ==> ',' !in parts[k]
    ensures Split(JoinParts(parts)) == parts
  {
    if |parts| == 1 {
      SplitPrefix(parts[0], "");
      assert parts[0] + "" == parts[0];
    } else {
      var rest := JoinParts(parts[1..]);
      SplitJoin(parts[1..]);
      assert parts[0] + "," + rest == parts[0] + ("," + rest);
      assert ("," + rest)[1..] == rest;
      SplitPrefix(parts[0], "," + rest);
      assert Split("," + rest) == [""] + parts[1..];
      assert parts[0] + "" == parts[0];
    }
  }

  // ----- Trimming -----

  lemma TrimDropsFirst(c: char, s: string)
    requires IsSpace(c)
    ensures TrimSpace([c] + s) == TrimSpace(s)
  {
    assert ([c] + s)[1..] == s;
  }

  lemma {:induction false} TrimLeftSnoc(s: string, c: char)
    requires IsSpace(c)
    ensures TrimLeft(s + [c]) == if TrimLeft(s) == "" then "" else TrimLeft(s) + [c]
  {
    hide IsSpace;
    if s == "" {
      assert s + [c] == [c] && [c][1..] == "";
    } else if IsSpace(s[0]) {
      TrimLeftSnoc(s[1..], c);
      assert (s + [c])[1..] == s[1..] + [c];
    }
  }

  lemma TrimDropsLast(s: string, c: char)
    requires IsSpace(c)
    ensures TrimSpace(s + [c]) == TrimSpace(s)
  {
    hide IsSpace;
    TrimLeftSnoc(s, c);
    var t := TrimLeft(s);
    assert (t + [c])[..|t + [c]| - 1] == t;
  }

  predicate AllSpace(s: string) {
    forall k :: 0 <= k < |s| ==> IsSpace(s[k])
  }

  /** White space on either side does not survive trimming. */
  lemma {:induction false} TrimPadded(lead: string, core: string, trail: string)
    requires AllSpace(lead) && AllSpace(trail)
    ensures TrimSpace(lead + core + trail) == TrimSpace(core)
    decreases |lead| + |trail|
  {
    hide IsSpace, TrimSpace;
    if lead != "" {
      TrimPadded(lead[1..], core, trail);
      assert lead + core + trail == [lead[0]] + (lead[1..] + core + trail);
      TrimDropsFirst(lead[0], lead[1..] + core + trail);
    } else if trail != "" {
      TrimPadded(lead, core, trail[..|trail| - 1]);
      assert lead + core + trail == (lead + core + trail[..|trail| - 1]) + [trail[|trail| - 1]];
      TrimDropsLast(lead + core + trail[..|trail| - 1], trail[|trail| - 1]);
    } else {
      assert lead + core + trail == core;
    }
  }

  lemma {:induction false} TrimLeftThenSplit(s: string)
    ensures Trimmed(Split(TrimLeft(s))) == Trimmed(Split(s))
  {
    hide TrimSpace, Split;
    if s != "" && IsSpace(s[0]) {
      TrimLeftThenSplit(s[1..]);
      SpaceBeforeSplit(s[0], s[1..]);
      assert s == [s[0]] + s[1..];
    }
  }

  lemma SpaceBeforeSplit(c: char, s: string)
    requires IsSpace(c)
    ensures Trimmed(Split([c] + s)) == Trimmed(Split(s))
  {
    hide TrimSpace, Split;
    SplitHead(c, s);
    TrimDropsFirst(c, Split(s)[0]);
  }

  lemma SnocCommutes(head: char, rest: seq<string>, c: char)
    requires |rest| > 0
    ensures var n := |rest| - 1;
            var longer := rest[..n] + [rest[n] + [c]];
            && [""] + longer == ([""] + rest)[..n + 1] + [rest[n] + [c]]
            && var parts := [[head] + rest[0]] + rest[1..];
               [[head] + longer[0]] + longer[1..] == parts[..n] + [parts[n] + [c]]
  {
    if |rest| == 1 {
      assert [head] + (rest[0] + [c]) == ([head] + rest[0]) + [c];
    }
  }

  lemma {:induction false} SplitSnoc(s: string, c: char)
    requires c != ','
    ensures var parts := Split(s); Split(s + [c]) == parts[..|parts| - 1] + [parts[|parts| - 1] + [c]]
  {
    if s == "" {
      assert s + [c] == [c] && [c][1..] == "" && [c] + "" == [c] && "" + [c] == [c];
      assert Split([c]) == [[c]];
    } else {
      hide Split;
      SplitSnoc(s[1..], c);
      assert s + [c] == [s[0]] + (s[1..] + [c]) && s == [s[0]] + s[1..];
      SplitHead(s[0], s[1..]);
      SplitHead(s[0], s[1..] + [c]);
      SnocCommutes(s[0], Split(s[1..]), c);
    }
  }

  lemma {:induction false} TrimRightThenSplit(s: string)
    ensures Trimmed(Split(TrimRight(s))) == Trimmed(Split(s))
  {
    hide TrimSpace;
    if s != "" && IsSpace(s[|s| - 1]) {
      var pre, c := s[..|s| - 1], s[|s| - 1];
      assert pre + [c] == s;
      TrimRightThenSplit(pre);
      SpaceAfterSplit(pre, c);
    }
  }

  lemma SpaceAfterSplit(s: string, c: char)
    requires IsSpace(c)
    ensures Trimmed(Split(s + [c])) == Trimmed(Split(s))
  {
    hide TrimSpace, Split;
    SplitSnoc(s, c);
    var parts := Split(s);
    TrimDropsLast(parts[|parts| - 1], c);
  }

  /** Trimming the header first makes no difference to its trimmed parts. */
  lemma TrimThenSplit(s: string)
    ensures Trimmed(Split(TrimSpace(s))) == Trimmed(Split(s))
  {
    TrimLeftThenSplit(s);
    TrimRightThenSplit(TrimLeft(s));
  }

  // ----- Hexadecimal -----

  function HexDigit(v: nat): char
    requires v < 16
  {
    if v < 10 then '0' + v as char else 'a' + (v - 10) as char
  }

  function HexValue(c: char): Option<nat> {
    if '0' <= c <= '9' then Some((c - '0') as nat)
    else if 'a' <= c <= 'f' then Some((c - 'a') as nat + 10)
    else if 'A' <= c <= 'F' then Some((c - 'A') as nat + 10)
    else None
  }

  function EncodeHex(b: seq<byte>): string {
    if b == [] then "" else [HexDigit(b[0] / 16), HexDigit(b[0] % 16)] + EncodeHex(b[1..])
  }

  /** Fails on an odd number of characters and on characters that are no digits. */
  function DecodeHex(s: string): Option<seq<byte>> {
    if s == "" then Some([])
    else if |s| == 1 || HexValue(s[0]).None? || HexValue(s[1]).None? || DecodeHex(s[2..]).None? then None
    else
      var high, low := HexValue(s[0]).value, HexValue(s[1]).value;
      if high < 16 && low < 16 then Some([high * 16 + low] + DecodeHex(s[2..]).value) else None
  }

  lemma HexDigitExact(c: char, v: nat)
    requires v < 16
    ensures HexValue(c) == Some(v) <==> ToLower([c]) == [HexDigit(v)]
    ensures HexValue(c).Some? ==> HexValue(c).value < 16
  {
    var lowered := if 'A' <= c <= 'Z' then c - 'A' + 'a' else c;
    assert [c][1..] == "" && ToLower("") == "";
    assert ToLower([c]) == [lowered];
  }

  lemma ToLowerHead(s: string)
    requires s != ""
    ensures ToLower(s) == ToLower([s[0]]) + ToLower(s[1..])
  {
    assert [s[0]][1..] == "" && ToLower("") == "";
  }

  lemma LowerPair(s: string)
    requires |s| >= 2
    ensures ToLower(s) == ToLower([s[0]]) + (ToLower([s[1]]) + ToLower(s[2..]))
  {
    hide ToLower;
    ToLowerHead(s);
    ToLowerHead(s[1..]);
    assert s[1..][0] == s[1] && s[1..][1..] == s[2..];
  }

  /** A text decodes to some bytes exactly when it is their hexadecimal form in either case. */
  lemma {:induction false} DecodeHexExact(s: string, b: seq<byte>)
    ensures DecodeHex(s) == Some(b) <==> ToLower(s) == EncodeHex(b)
  {
    if |s| >= 2 && b != [] {
      DecodeHexExact(s[2..], b[1..]);
      LowerPair(s);
      HexDigitExact(s[0], b[0] / 16);
      HexDigitExact(s[1], b[0] % 16);
      HexPair(s, b);
      PairsAgree(
        ToLower([s[0]]), ToLower([s[1]]), ToLower(s[2..]),
        HexDigit(b[0] / 16), HexDigit(b[0] % 16), EncodeHex(b[1..]));
    } else {
      assert b != [] ==> |EncodeHex(b)| >= 2;
      assert DecodeHex(s).Some? && s != "" ==> DecodeHex(s).value != [];
    }
  }

  lemma PairsAgree(a: string, b: string, s: string, c: char, d: char, t: string)
    requires |a| == 1 && |b| == 1
    ensures a + (b + s) == [c, d] + t <==> a == [c] && b == [d] && s == t
  {
    var left, right := a + (b + s), [c, d] + t;
    assert left[0] == a[0] && left[1] == b[0] && left[2..] == s;
    assert right[0] == c && right[1] == d && right[2..] == t;
  }

  lemma HexPair(s: string, b: seq<byte>)
    requires |s| >= 2 && b != []
    ensures DecodeHex(s) == Some(b) <==>
              && HexValue(s[0]) == Some(b[0] / 16) && HexValue(s[1]) == Some(b[0] % 16)
              && DecodeHex(s[2..]) == Some(b[1..])
  {
    var d := DecodeHex(s);
    if d.Some? {
      var high, low := HexValue(s[0]).value, HexValue(s[1]).value;
      assert d.value[0] == high * 16 + low && d.value[1..] == DecodeHex(s[2..]).value;
      assert d.value == b ==> b[0] / 16 == high && b[0] % 16 == low;
    }
    if HexValue(s[0]) == Some(b[0] / 16) && HexValue(s[1]) == Some(b[0] % 16) && DecodeHex(s[2..]) == Some(b[1..]) {
      assert b[0] / 16 * 16 + b[0] % 16 == b[0];
      assert [b[0]] + b[1..] == b;
    }
  }

  // ----- Decimal time stamps -----

  predicate AllDigits(s: string) {
    forall k :: 0 <= k < |s| ==> '0' <= s[k] <= '9'
  }

  function Value(s: string): nat
    requires AllDigits(s)
  {
    if s == "" then 0 else Value(s[..|s| - 1]) * 10 + (s[|s| - 1] - '0') as nat
  }

  /** Base-10 parsing of a signed 64-bit integer with an optional sign. */
  function ParseInt64(s: string): Option<int64> {
    if s == "" then None
    else
      var signed := s[0] == '-' || s[0] == '+';
      var digits := if signed then s[1..] else s;
      if digits == "" || !AllDigits(digits) then None
      else
        var n: int := if s[0] == '-' then -(Value(digits) as int) else Value(digits);
        if -INT64_LIMIT <= n < INT64_LIMIT then Some(n) else None
  }

  lemma {:induction false} ValueOfDecimal(n: nat)
    ensures AllDigits(DecimalNat(n)) && Value(DecimalNat(n)) == n
  {
    if n >= 10 {
      ValueOfDecimal(n / 10);
      var s := DecimalNat(n);
      assert s[..|s| - 1] == DecimalNat(n / 10);
    } else {
      assert DecimalNat(n)[..0] == "";
    }
  }

  lemma ParseOfDecimal(t: int64)
    ensures ParseInt64(Decimal(t)) == Some(t)
  {
    var n: int := t;
    ValueOfDecimal(if n < 0 then -n else n);
    if t < 0 {
      assert Decimal(t)[1..] == DecimalNat(-n);
    }
  }

  /** Exactly which texts are numbers: an optional sign and decimal digits, leading zeros
      included, whose value fits 64 bits. */
  lemma ParseExactly(sign: string, digits: string)
    requires sign in {"", "+", "-"} && digits != "" && AllDigits(digits)
    ensures var n: int := if sign == "-" then -(Value(digits) as int) else Value(digits);
            ParseInt64(sign + digits) == if -INT64_LIMIT <= n < INT64_LIMIT then Some(n) else None
  {
    if sign == "" {
      assert sign + digits == digits;
    } else {
      assert (sign + digits)[1..] == digits;
    }
  }

  lemma NothingElseParses(s: string)
    requires ParseInt64(s).Some?
    ensures exists sign, digits :: s == sign + digits && sign in {"", "+", "-"} && digits != "" && AllDigits(digits)
  {
    if s[0] == '-' || s[0] == '+' {
      assert s == [s[0]] + s[1..];
    } else {
      assert s == "" + s;
    }
  }

  lemma {:induction false} LeadingZero(digits: string)
    requires AllDigits(digits)
    ensures Value("0" + digits) == Value(digits)
  {
    if digits == "" {
      assert "0" + digits == "0" && "0"[..0] == "";
    } else {
      var n := |digits| - 1;
      LeadingZero(digits[..n]);
      assert ("0" + digits)[..n + 1] == "0" + digits[..n];
    }
  }

  // ----- The tolerance window -----

  function Distance(a: int, b: int): nat {
    if a < b then b - a else a - b
  }

  /** The two comparisons of the check, in wrapping 64-bit arithmetic. */
  predicate InWindow(now: int64, ts: int64, tolerance: int64) {
    Wrap64(now - ts) <= tolerance && Wrap64(ts - now) <= tolerance
  }

  /** A configured tolerance that is not positive means 300 seconds. */
  function Tolerance(configured: int64): (t: int64)
    ensures t > 0 && (t == configured || (configured <= 0 && t == 300))
  {
    if configured <= 0 then 300 else configured
  }

  /** When the comparisons mean what they say. The differences wrap only for stamps at
      least 2^63 seconds in the past; of these the one at exactly 2^63 is always accepted,
      and the others only under a tolerance that reaches round the whole range. */
  lemma WindowExact(now: int64, ts: int64, tolerance: int64)
    requires now >= 0 && tolerance >= 0
    ensures InWindow(now, ts, tolerance) <==>
              || Distance(now, ts) <= tolerance
              || now - ts == INT64_LIMIT
              || (now - ts > INT64_LIMIT && 2 * INT64_LIMIT - (now - ts) <= tolerance)
  {
  }

  /** For every tolerance that keeps now + tolerance in range, one stamp is misjudged. */
  lemma WindowIsDistance(now: int64, ts: int64, tolerance: int64)
    requires now >= 0 && tolerance > 0 && now + tolerance < INT64_LIMIT
    ensures InWindow(now, ts, tolerance) <==> Distance(now, ts) <= tolerance || ts == now - INT64_LIMIT
  {
    WindowExact(now, ts, tolerance);
  }

  // ----- The check -----

  /** The value of the last `t=` part, even if empty. */
  function LastTimestamp(parts: seq<string>): string {
    if parts == [] then ""
    else
      var last := parts[|parts| - 1];
      if "t=" <= last then TrimSpace(last[2..]) else LastTimestamp(parts[..|parts| - 1])
  }

  function Signatures(parts: seq<string>): seq<string> {
    if parts == [] then []
    else
      var last := parts[|parts| - 1];
      Signatures(parts[..|parts| - 1]) + if "v1=" <= last then [TrimSpace(last[3..])] else []
  }

  predicate SomeDecodesTo(signatures: seq<string>, digest: seq<byte>) {
    exists k :: 0 <= k < |signatures| && DecodeHex(signatures[k]) == Some(digest)
  }

  predicate AcceptsFields(
      mac: Mac, payload: string, ts: string, signatures: seq<string>, secret: string, tolerance: int64, now: int64) {
    && ts != "" && signatures != []
    && ParseInt64(ts).Some? && InWindow(now, ParseInt64(ts).value, tolerance)
    && SomeDecodesTo(signatures, mac(secret, ts + "." + payload))
  }

  predicate Accepts(mac: Mac, payload: string, header: string, secret: string, tolerance: int64, now: int64) {
    var parts := Trimmed(Split(TrimSpace(header)));
    && !IsBlank(header) && !IsBlank(secret)
    && AcceptsFields(mac, payload, LastTimestamp(parts), Signatures(parts), secret, tolerance, now)
  }

  method VerifyStripeSignature(mac: Mac, payload: string, header: string, secret: string, tolerance: int64, now: int64)
    returns (ok: bool)
    ensures ok == Accepts(mac, payload, header, secret, tolerance, now)
  {
    hide IsSpace, TrimSpace, Wrap64, DecodeHex, Split, ParseInt64;
    var text := TrimSpace(header);
    if text == "" || IsBlank(secret) {
      return false;
    }
    var parts := Split(text);
    ghost var trimmed := Trimmed(parts);
    var ts := "";
    var v1: seq<string> := [];
    for i := 0 to |parts|
      invariant ts == LastTimestamp(trimmed[..i]) && v1 == Signatures(trimmed[..i])
    {
      assert trimmed[..i + 1][..i] == trimmed[..i];
      var part := TrimSpace(parts[i]);
      if "t=" <= part {
        ts := TrimSpace(part[2..]);
      }
      if "v1=" <= part {
        v1 := v1 + [TrimSpace(part[3..])];
      }
    }
    assert trimmed[..|parts|] == trimmed;
    if ts == "" || |v1| == 0 {
      return false;
    }
    var stamp := ParseInt64(ts);
    if stamp.None? {
      return false;
    }
    if Wrap64(now - stamp.value) > tolerance || Wrap64(stamp.value - now) > tolerance {
      return false;
    }
    var expected := mac(secret, ts + "." + payload);
    for i := 0 to |v1|
      invariant forall k :: 0 <= k < i ==> DecodeHex(v1[k]) != Some(expected)
    {
      var candidate := DecodeHex(v1[i]);
      if candidate.None? {
        continue;
      }
      if candidate.value == expected {
        return true;
      }
    }
    return false;
  }

  // ----- Headers by construction -----

  /** A header part: a tag with its text, both possibly surrounded by white space, or any
      other comma-free text. */
  datatype Part =
    | Stamp(lead: string, gap: string, text: string, trail: string)
    | V1(lead: string, gap: string, text: string, trail: string)
    | Extra(text: string)

  function Render(part: Part): string {
    match part
    case Stamp(lead, gap, text, trail) => lead + ("t=" + gap + text) + trail
    case V1(lead, gap, text, trail) => lead + ("v1=" + gap + text) + trail
    case Extra(text) => text
  }

  predicate WellFormed(part: Part) {
    && ',' !in part.text
    && (part.Extra? ==> !("t=" <= TrimSpace(part.text)) && !("v1=" <= TrimSpace(part.text)))
    && (!part.Extra? ==>
          AllSpace(part.lead) && AllSpace(part.gap) && AllSpace(part.trail) && TrimSpace(part.text) == part.text)
  }

  function Rendered(parts: seq<Part>): (r: seq<string>)
    ensures |r| == |parts|
  {
    if parts == [] then [] else Rendered(parts[..|parts| - 1]) + [Render(parts[|parts| - 1])]
  }

  /** The text of the last time stamp. */
  function LastStamp(parts: seq<Part>): string {
    if parts == [] then ""
    else if parts[|parts| - 1].Stamp? then parts[|parts| - 1].text
    else LastStamp(parts[..|parts| - 1])
  }

  function V1Texts(parts: seq<Part>): seq<string> {
    if parts == [] then []
    else
      V1Texts(parts[..|parts| - 1]) + if parts[|parts| - 1].V1? then [parts[|parts| - 1].text] else []
  }

  /** A tag survives trimming of its part, and the text behind it trims to itself. */
  lemma TagSurvives(lead: string, tag: string, gap: string, text: string, trail: string)
    requires tag != "" && !IsSpace(tag[0]) && !IsSpace(tag[|tag| - 1])
    requires AllSpace(lead) && AllSpace(gap) && AllSpace(trail) && TrimSpace(text) == text
    ensures var r := TrimSpace(lead + (tag + gap + text) + trail); tag <= r && TrimSpace(r[|tag|..]) == text
  {
    hide IsSpace, TrimSpace;
    TrimPadded(lead, tag + gap + text, trail);
    if text == "" {
      EmptyTextSurvives(tag, gap);
      assert tag + gap + text == tag + gap;
    } else {
      TextSurvives(tag, gap, text);
    }
  }

  lemma EmptyTextSurvives(tag: string, gap: string)
    requires tag != "" && !IsSpace(tag[0]) && !IsSpace(tag[|tag| - 1]) && AllSpace(gap)
    ensures var r := TrimSpace(tag + gap); tag <= r && TrimSpace(r[|tag|..]) == ""
  {
    hide IsSpace;
    TrimPadded("", tag, gap);
    assert "" + tag + gap == tag + gap;
    TrimFixes(tag);
    assert tag[|tag|..] == "";
  }

  lemma TextSurvives(tag: string, gap: string, text: string)
    requires tag != "" && !IsSpace(tag[0]) && AllSpace(gap) && text != "" && TrimSpace(text) == text
    ensures var r := TrimSpace(tag + gap + text); tag <= r && TrimSpace(r[|tag|..]) == text
  {
    hide IsSpace, TrimSpace;
    var core := tag + gap + text;
    TextEnds(text);
    assert core[0] == tag[0] && core[|core| - 1] == text[|text| - 1];
    TrimFixes(core);
    TrimPadded(gap, text, "");
    assert gap + text + "" == core[|tag|..];
  }

  lemma TextEnds(text: string)
    requires text != "" && TrimSpace(text) == text
    ensures !IsSpace(text[|text| - 1])
  {
  }

  lemma PartReads(part: Part)
    requires WellFormed(part)
    ensures var r := TrimSpace(Render(part));
            && ("t=" <= r <==> part.Stamp?) && ("v1=" <= r <==> part.V1?)
            && (part.Stamp? ==> TrimSpace(r[2..]) == part.text)
            && (part.V1? ==> TrimSpace(r[3..]) == part.text)
  {
    hide TrimSpace, AllSpace;
    var r := TrimSpace(Render(part));
    if part.Stamp? {
      TagSurvives(part.lead, "t=", part.gap, part.text, part.trail);
      assert r[0] == 't';
    } else if part.V1? {
      TagSurvives(part.lead, "v1=", part.gap, part.text, part.trail);
      assert r[0] == 'v';
    }
  }

  lemma {:induction false} PartsRead(parts: seq<Part>)
    requires forall k :: 0 <= k < |parts| ==> WellFormed(parts[k])
    ensures LastTimestamp(Trimmed(Rendered(parts))) == LastStamp(parts)
    ensures Signatures(Trimmed(Rendered(parts))) == V1Texts(parts)
  {
    hide TrimSpace, Render, WellFormed;
    if parts != [] {
      var pre, last := parts[..|parts| - 1], parts[|parts| - 1];
      PartsRead(pre);
      PartReads(last);
      assert Trimmed(Rendered(parts))[..|pre|] == Trimmed(Rendered(pre));
    }
  }

  lemma RenderedHasNoComma(part: Part)
    requires WellFormed(part)
    ensures ',' !in Render(part)
  {
    hide TrimSpace;
    assert !IsSpace(',');
  }

  lemma {:induction false} RenderedAt(parts: seq<Part>)
    requires forall k :: 0 <= k < |parts| ==> WellFormed(parts[k])
    ensures forall k :: 0 <= k < |parts| ==> ',' !in Rendered(parts)[k]
  {
    hide WellFormed, Render;
    if parts != [] {
      RenderedAt(parts[..|parts| - 1]);
      RenderedHasNoComma(parts[|parts| - 1]);
    }
  }

  lemma {:induction false} V1TextsAre(parts: seq<Part>, digest: seq<byte>)
    ensures SomeDecodesTo(V1Texts(parts), digest)
        <==> exists k :: 0 <= k < |parts| && parts[k].V1? && DecodeHex(parts[k].text) == Some(digest)
  {
    hide DecodeHex, SomeDecodesTo;
    if parts == [] {
      assert !SomeDecodesTo([], digest) by { SomeDecodesToSnoc([], "", digest); }
    } else {
      var pre, last := parts[..|parts| - 1], parts[|parts| - 1];
      V1TextsAre(pre, digest);
      SomeDecodesToSnoc(V1Texts(pre), last.text, digest);
      assert V1Texts(pre) + [] == V1Texts(pre);
      assert forall k :: 0 <= k < |pre| ==> parts[k] == pre[k];
      assert parts[|pre|] == last;
    }
  }

  lemma SomeDecodesToSnoc(texts: seq<string>, text: string, digest: seq<byte>)
    ensures !SomeDecodesTo([], digest)
    ensures SomeDecodesTo(texts + [text], digest) <==> SomeDecodesTo(texts, digest) || DecodeHex(text) == Some(digest)
  {
    hide DecodeHex;
    assert (texts + [text])[|texts|] == text;
    assert forall k :: 0 <= k < |texts| ==> (texts + [text])[k] == texts[k];
  }

  lemma FieldsOfHeader(parts: seq<Part>)
    requires |parts| > 0 && forall k :: 0 <= k < |parts| ==> WellFormed(parts[k])
    ensures var trimmed := Trimmed(Split(TrimSpace(JoinParts(Rendered(parts)))));
            LastTimestamp(trimmed) == LastStamp(parts) && Signatures(trimmed) == V1Texts(parts)
  {
    hide TrimSpace, LastTimestamp, Signatures, Split, JoinParts, WellFormed, Rendered, Trimmed;
    RenderedAt(parts);
    SplitJoin(Rendered(parts));
    TrimThenSplit(JoinParts(Rendered(parts)));
    PartsRead(parts);
  }

  /** Some `v1` text of the header is the digest of the stamped payload in hexadecimal. */
  predicate Signed(mac: Mac, payload: string, parts: seq<Part>, stamp: string, secret: string) {
    exists k :: 0 <= k < |parts| && parts[k].V1?
      && ToLower(parts[k].text) == EncodeHex(mac(secret, stamp + "." + payload))
  }

  lemma FieldsAccepted(
      mac: Mac, payload: string, parts: seq<Part>, ts: string, secret: string, tolerance: int64, now: int64)
    ensures AcceptsFields(mac, payload, ts, V1Texts(parts), secret, tolerance, now)
        <==> && ParseInt64(ts).Some? && InWindow(now, ParseInt64(ts).value, tolerance)
             && Signed(mac, payload, parts, ts, secret)
  {
    hide DecodeHex, InWindow, V1Texts, ToLower, EncodeHex;
    var digest := mac(secret, ts + "." + payload);
    V1TextsAre(parts, digest);
    forall k | 0 <= k < |parts|
      ensures DecodeHex(parts[k].text) == Some(digest) <==> ToLower(parts[k].text) == EncodeHex(digest)
    {
      DecodeHexExact(parts[k].text, digest);
    }
  }

  /** A header assembled from parts is accepted exactly when its last time stamp is a 64-bit
      decimal within the tolerance and some `v1` text is the digest of the stamped payload. */
  lemma HeaderRoundTrip(mac: Mac, payload: string, parts: seq<Part>, secret: string, tolerance: int64, now: int64)
    requires |parts| > 0 && forall k :: 0 <= k < |parts| ==> WellFormed(parts[k])
    ensures Accepts(mac, payload, JoinParts(Rendered(parts)), secret, tolerance, now)
        <==> var stamp := ParseInt64(LastStamp(parts));
             && !IsBlank(secret) && stamp.Some? && InWindow(now, stamp.value, tolerance)
             && Signed(mac, payload, parts, LastStamp(parts), secret)
  {
    hide TrimSpace, AcceptsFields, InWindow, LastTimestamp, Signatures, Split, JoinParts, WellFormed, Rendered, Trimmed,
      LastStamp, V1Texts, Signed;
    var header := JoinParts(Rendered(parts));
    FieldsOfHeader(parts);
    FieldsAccepted(mac, payload, parts, LastStamp(parts), secret, tolerance, now);
    if IsBlank(header) {
      BlankHasNoStamp(header);
    }
  }

  lemma BlankHasNoStamp(header: string)
    requires IsBlank(header)
    ensures LastTimestamp(Trimmed(Split(TrimSpace(header)))) == ""
  {
    assert Trimmed([""])[..0] == [];
  }
}
