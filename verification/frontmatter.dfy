/**
 * The frontmatter serializer: a document is a delimiter line, a header
 * written by a configurable header serializer, a second delimiter line and
 * a free-text body. `Encode` writes a record that way; `DecodeText` reads
 * it back, tolerating a byte-order mark and any line-ending style;
 * `Decode` adds the optional cache in front of it.
 */
module Frontmatter {
  import opened Php
  import opened Text
  import opened Cache

  /**
   * A header serializer (YAML by default). Its `decode` fails with `None`
   * on a malformed header; that failure propagates to the caller.
   */
  datatype HeaderCodec = HeaderCodec(
    encode: map<string, Value> -> string,
    decode: string -> Option<map<string, Value>>)

  /**
   * The header serializer actually used: the configured one, unless it is
   * `frontmatter` itself or not in the allowed list, in which case `yaml`.
   */
  function HeaderSerializer(configured: string, allowed: seq<string>): (name: string)
    ensures name != "frontmatter"
    ensures name == "yaml" || name in allowed
    ensures configured != "frontmatter" && configured in allowed ==> name == configured
    ensures configured == "frontmatter" || configured !in allowed ==> name == "yaml"
  {
    if configured == "frontmatter" || configured !in allowed then "yaml" else configured
  }

  // ---------------------------------------------------------------------
  // encode
  // ---------------------------------------------------------------------

  /** `isset($input['content'])`. */
  predicate HasBody(input: map<string, Value>)
  {
    "content" in input && input["content"] != Null
  }

  /** Writes a record: the `content` entry, when set, is the body and is left out of the header. */
  function Encode(input: map<string, Value>, codec: HeaderCodec): (r: string)
    ensures |r| >= 8 && r[..4] == "---\n"
  {
    var header := if HasBody(input) then input - {"content"} else input;
    var body := if HasBody(input) then StrVal(input["content"]) else "";
    "---\n" + codec.encode(header) + "---\n" + body
  }

  /** `encode` with the header serializer chosen from the configuration. */
  function EncodeWith(input: map<string, Value>, configured: string, allowed: seq<string>,
                      codecs: string -> HeaderCodec): string
  {
    Encode(input, codecs(HeaderSerializer(configured, allowed)))
  }

  // ---------------------------------------------------------------------
  // decode: the preparation of the text
  // ---------------------------------------------------------------------

  /** The three bytes of the UTF-8 byte-order mark, as a character set. */
  const BomChars: set<char> := {'\U{EF}', '\U{BB}', '\U{BF}'}

  /** `ltrim($input, "\xef\xbb\xbf")`: drops any leading run of those three bytes. */
  function StripBom(s: string): string
  {
    LTrim(s, BomChars)
  }

  predicate NoCarriageReturn(s: string)
  {
    forall i :: 0 <= i < |s| ==> s[i] != '\r'
  }

  /** Replaces each `\r\n`, then each remaining lone `\r`, by `\n`, scanning left to right. */
  function NormalizeEol(s: string): (r: string)
    ensures NoCarriageReturn(r)
    decreases |s|
  {
    if s == [] then []
    else if s[0] == '\r' then "\n" + NormalizeEol(if |s| > 1 && s[1] == '\n' then s[2..] else s[1..])
    else [s[0]] + NormalizeEol(s[1..])
  }

  /** Text without carriage returns is left alone. */
  lemma {:induction false} NormalizeEolFixes(s: string)
    requires NoCarriageReturn(s)
    ensures NormalizeEol(s) == s
    decreases |s|
  {
    if s != [] {
      NormalizeEolFixes(s[1..]);
    }
  }

  /** Removing the mark and normalising line endings can be done in either order. */
  lemma {:induction false} StripBomCommutes(s: string)
    ensures StripBom(NormalizeEol(s)) == NormalizeEol(StripBom(s))
    decreases |s|
  {
    if s != [] && s[0] in BomChars {
      var rest := NormalizeEol(s[1..]);
      assert NormalizeEol(s) == [s[0]] + rest;
      assert ([s[0]] + rest)[1..] == rest;
      StripBomCommutes(s[1..]);
    }
  }

  // ---------------------------------------------------------------------
  // decode: splitting on delimiter lines
  // ---------------------------------------------------------------------

  /** The `\s` class of the delimiter pattern (after normalisation `\r` no longer occurs). */
  predicate IsSpace(c: char)
  {
    c == ' ' || c == '\t' || c == '\n' || c == '\r' || c == '\U{B}' || c == '\U{C}'
  }

  /** `^` in multi-line mode. */
  predicate AtLineStart(s: string, p: nat)
  {
    p == 0 || (p <= |s| && s[p - 1] == '\n')
  }

  /** `$` in multi-line mode. */
  predicate AtLineEnd(s: string, p: nat)
  {
    p == |s| || (p < |s| && s[p] == '\n')
  }

  /** `---[\s]?$` matched at `q`: where the match ends, trying the optional blank first. */
  function DashesThenEnd(s: string, q: nat): (r: Option<nat>)
    ensures r.Some? ==> OccursAt(s, "---", q) && q + 3 <= r.value <= |s|
  {
    if !OccursAt(s, "---", q) then None
    else if q + 3 < |s| && IsSpace(s[q + 3]) && AtLineEnd(s, q + 4) then Some(q + 4)
    else if AtLineEnd(s, q + 3) then Some(q + 3)
    else None
  }

  /**
   * The delimiter pattern `^[\s\r\n]?---[\s\r\n]?$` (multi-line) tried at
   * position `p`: where the match ends, if it matches there. The optional
   * leading blank is tried first, as the regular-expression engine does.
   */
  function DelimiterAt(s: string, p: nat): (r: Option<nat>)
    ensures r.Some? ==> p + 3 <= r.value <= |s|
    ensures r.Some? ==> AtLineStart(s, p) && (OccursAt(s, "---", p) || OccursAt(s, "---", p + 1))
  {
    if p > |s| || !AtLineStart(s, p) then None
    else if p < |s| && IsSpace(s[p]) && DashesThenEnd(s, p + 1).Some? then DashesThenEnd(s, p + 1)
    else DashesThenEnd(s, p)
  }

  /**
   * `preg_split` with the delimiter pattern: the piece being built starts
   * at `start`; the search for the next delimiter resumes at `from`.
   */
  function SplitFrom(s: string, start: nat, from: nat): (parts: seq<string>)
    requires start <= from <= |s| + 1 && start <= |s|
    ensures |parts| >= 1
    decreases |s| + 1 - from
  {
    if from > |s| then [s[start..]]
    else match DelimiterAt(s, from)
      case Some(e) => [s[start..from]] + SplitFrom(s, e, e)
      case None => SplitFrom(s, start, from + 1)
  }

  function Split(s: string): seq<string>
  {
    SplitFrom(s, 0, 0)
  }

  /** `implode($sep, $parts)`. */
  function Join(parts: seq<string>, sep: string): string
  {
    if |parts| == 0 then ""
    else if |parts| == 1 then parts[0]
    else parts[0] + sep + Join(parts[1..], sep)
  }

  /** Positions without a delimiter can be skipped: the split is the same. */
  lemma {:induction false} SplitSkips(s: string, start: nat, from: nat, upto: nat)
    requires start <= from <= upto <= |s| + 1 && start <= |s|
    requires forall p :: from <= p < upto ==> DelimiterAt(s, p).None?
    ensures SplitFrom(s, start, from) == SplitFrom(s, start, upto)
    decreases upto - from
  {
    if from < upto {
      SplitSkips(s, start, from + 1, upto);
    }
  }

  /** With no delimiter from `from` on, the rest of the text is the last piece. */
  lemma SplitEnds(s: string, start: nat, from: nat)
    requires start <= from <= |s| + 1 && start <= |s|
    requires forall p :: from <= p <= |s| ==> DelimiterAt(s, p).None?
    ensures SplitFrom(s, start, from) == [s[start..]]
  {
    SplitSkips(s, start, from, |s| + 1);
  }

  /** Whether `---[\s]?$` matches at `q` depends only on the text from `q` on. */
  lemma DashesIsLocal(s: string, d: nat, q: nat)
    requires d <= q && d <= |s|
    ensures DashesThenEnd(s, q).None? <==> DashesThenEnd(s[d..], q - d).None?
  {
    var t := s[d..];
    if q + 3 <= |s| {
      assert t[q - d..q - d + 3] == s[q..q + 3];
    }
  }

  /** Whether a delimiter starts at `p >= 1` depends only on the text from `p - 1` on. */
  lemma DelimiterIsLocal(s: string, d: nat, p: nat)
    requires d < p <= |s|
    ensures DelimiterAt(s, p).None? <==> DelimiterAt(s[d..], p - d).None?
  {
    var t := s[d..];
    assert AtLineStart(s, p) <==> AtLineStart(t, p - d);
    DashesIsLocal(s, d, p);
    DashesIsLocal(s, d, p + 1);
  }

  // ---------------------------------------------------------------------
  // decode
  // ---------------------------------------------------------------------

  /** The text the splitter sees: the mark removed and line endings normalised. */
  function Prepared(input: string): string
  {
    NormalizeEol(StripBom(input))
  }

  /**
   * Reads a document. With fewer than three pieces the whole trimmed text
   * is the body. Otherwise the text before the first delimiter is dropped,
   * the second piece is the header, and the remaining pieces, rejoined with
   * delimiter lines, form the body; a `content` key of the header wins over
   * the body (PHP's `+` keeps the left operand's keys).
   */
  function DecodeText(input: string, codec: HeaderCodec): (r: Option<map<string, Value>>)
    ensures r.Some? ==> "content" in r.value
  {
    DecodePrepared(Prepared(input), codec)
  }

  /** The reading of a prepared text. */
  function DecodePrepared(text: string, codec: HeaderCodec): (r: Option<map<string, Value>>)
    ensures r.Some? ==> "content" in r.value
  {
    var parts := Split("\n" + TrimLeft(text));
    if |parts| < 3 then Some(map["content" := Str(Trim(text))])
    else match codec.decode(Trim(parts[1]))
      case None => None
      case Some(header) => Some(map["content" := Str(Trim(Join(parts[2..], "\n---\n")))] + header)
  }

  /**
   * `decode` chooses its header serializer from the decode setting, checked
   * against the list of serializers allowed for encoding.
   */
  function DecodeWith(input: string, configured: string, allowedForEncode: seq<string>,
                      codecs: string -> HeaderCodec): Option<map<string, Value>>
  {
    DecodeText(input, codecs(HeaderSerializer(configured, allowedForEncode)))
  }

  /** Decoding does not depend on line-ending style: normalising first changes nothing. */
  lemma DecodeIgnoresLineEndings(input: string, codec: HeaderCodec)
    ensures DecodeText(NormalizeEol(input), codec) == DecodeText(input, codec)
  {
    StripBomCommutes(input);
    NormalizeEolFixes(Prepared(input));
  }

  /** Every `\n` written as `\r\n`. */
  function WithCrlf(s: string): (r: string)
  {
    if s == [] then []
    else if s[0] == '\n' then "\r\n" + WithCrlf(s[1..])
    else [s[0]] + WithCrlf(s[1..])
  }

  lemma {:induction false} NormalizeUndoesCrlf(s: string)
    requires NoCarriageReturn(s)
    ensures NormalizeEol(WithCrlf(s)) == s
    decreases |s|
  {
    if s != [] {
      NormalizeUndoesCrlf(s[1..]);
      if s[0] == '\n' {
        assert WithCrlf(s)[2..] == WithCrlf(s[1..]);
      } else {
        assert WithCrlf(s)[1..] == WithCrlf(s[1..]);
      }
    }
  }

  /** A document saved with Windows line endings decodes as the same document with Unix ones. */
  lemma CrlfDecodesAlike(input: string, codec: HeaderCodec)
    requires NoCarriageReturn(input)
    ensures DecodeText(WithCrlf(input), codec) == DecodeText(input, codec)
  {
    NormalizeUndoesCrlf(input);
    DecodeIgnoresLineEndings(WithCrlf(input), codec);
    DecodeIgnoresLineEndings(input, codec);
    NormalizeEolFixes(input);
  }

  /** Text with no delimiter line is all body: the result is exactly its trimmed text. */
  lemma NoDelimiterMeansBodyOnly(input: string, codec: HeaderCodec)
    requires forall p :: DelimiterAt("\n" + TrimLeft(Prepared(input)), p).None?
    ensures DecodeText(input, codec) == Some(map["content" := Str(Trim(Prepared(input)))])
  {
    var s := "\n" + TrimLeft(Prepared(input));
    SplitEnds(s, 0, 0);
  }

  // ---------------------------------------------------------------------
  // The round trip
  // ---------------------------------------------------------------------

  /** No delimiter line occurs in a text placed after a line break. */
  predicate DelimiterFree(body: string)
  {
    forall k :: 1 <= k <= |body| ==> DelimiterAt("\n" + body, k).None?
  }

  /**
   * What the round trip needs of a header serializer's output for `header`:
   * it is a non-empty block ending in one line break, holding no carriage
   * return and no delimiter line, and the serializer reads its trimmed
   * text back.
   */
  predicate HeaderRoundTrips(codec: HeaderCodec, header: map<string, Value>)
  {
    var text := codec.encode(header);
    && |text| >= 2 && text == text[..|text| - 1] + "\n"
    && var core := text[..|text| - 1];
       && NoCarriageReturn(core)
       && DelimiterFree(core)
       && codec.decode(Trim(core)) == Some(header)
  }

  /**
   * Decoding an encoded record gives the record back, its body trimmed,
   * when the header serializer round-trips, the header has no `content`
   * key and the body holds no delimiter line and no carriage return.
   */
  lemma RoundTrip(record: map<string, Value>, codec: HeaderCodec, body: string)
    requires "content" in record && record["content"] == Str(body)
    requires HeaderRoundTrips(codec, record - {"content"})
    requires NoCarriageReturn(body) && DelimiterFree(body)
    ensures DecodeText(Encode(record, codec), codec) == Some(record["content" := Str(Trim(body))])
  {
    var header := record - {"content"};
    var text := codec.encode(header);
    var core := text[..|text| - 1];
    assert Encode(record, codec) == "---\n" + core + "\n---\n" + body;
    DecodeEncoded(codec, header, core, body);
    BodyRejoinsHeader(record, header, Str(Trim(body)));
  }

  /**
   * A record without a body (no `content`, or a null one) is written as a
   * bare header and read back with an empty body; the header's own
   * `content` entry, if any, wins.
   */
  lemma RoundTripWithoutBody(record: map<string, Value>, codec: HeaderCodec)
    requires !HasBody(record)
    requires HeaderRoundTrips(codec, record)
    ensures DecodeText(Encode(record, codec), codec) == Some(map["content" := Str("")] + record)
    ensures "content" !in record ==> DecodeText(Encode(record, codec), codec) == Some(record["content" := Str("")])
  {
    var text := codec.encode(record);
    var core := text[..|text| - 1];
    assert Encode(record, codec) == "---\n" + text + "---\n" + "";
    HeaderLayout(text, core, "");
    DecodeEncoded(codec, record, core, "");
    assert Trim("") == "";
    if "content" !in record {
      BodyJoinsHeader(record, Str(""));
    }
  }

  lemma BodyJoinsHeader(header: map<string, Value>, v: Value)
    requires "content" !in header
    ensures map["content" := v] + header == header["content" := v]
  {
  }

  lemma HeaderLayout(text: string, core: string, body: string)
    requires text == core + "\n"
    ensures "---\n" + text + "---\n" + body == "---\n" + core + "\n---\n" + body
  {
  }

  lemma BodyRejoinsHeader(record: map<string, Value>, header: map<string, Value>, v: Value)
    requires header == record - {"content"}
    ensures map["content" := v] + header == record["content" := v]
  {
  }

  /** Decoding the text written for a round-tripping header and a delimiter-free body. */
  lemma DecodeEncoded(codec: HeaderCodec, header: map<string, Value>, core: string, body: string)
    requires |core| >= 1 && NoCarriageReturn(core) && DelimiterFree(core)
    requires codec.decode(Trim(core)) == Some(header)
    requires NoCarriageReturn(body) && DelimiterFree(body)
    ensures DecodeText("---\n" + core + "\n---\n" + body, codec)
            == Some(map["content" := Str(Trim(body))] + header)
  {
    var x := "---\n" + core + "\n---\n" + body;
    EncodedTextIsPrepared(core, body);
    LeadingBreak(core, body);
    var block, tail := SplitEncoded("\n" + x, core, body);
    DecodeThreeParts(x, codec, block, tail, header);
  }

  lemma LeadingBreak(core: string, body: string)
    ensures "\n" + ("---\n" + core + "\n---\n" + body) == "\n---\n" + core + "\n---\n" + body
  {
  }

  /** A prepared text splitting into an empty lead, a header block and a tail decodes to that header and tail. */
  lemma DecodeThreeParts(x: string, codec: HeaderCodec, block: string, tail: string, header: map<string, Value>)
    requires Prepared(x) == x && TrimLeft(x) == x
    requires Split("\n" + x) == ["", block, tail]
    requires codec.decode(Trim(block)) == Some(header)
    ensures DecodeText(x, codec) == Some(map["content" := Str(Trim(tail))] + header)
  {
    var parts := Split("\n" + x);
    assert parts[2..] == [tail];
    assert Join(parts[2..], "\n---\n") == tail;
  }

  /** An encoded document carries no mark, no carriage return and no leading blank. */
  lemma EncodedTextIsPrepared(core: string, body: string)
    requires NoCarriageReturn(core) && NoCarriageReturn(body)
    ensures var x := "---\n" + core + "\n---\n" + body;
            Prepared(x) == x && TrimLeft(x) == x
  {
    var x := "---\n" + core + "\n---\n" + body;
    var n := |core|;
    assert NoCarriageReturn(x) by {
      forall i | 0 <= i < |x|
        ensures x[i] != '\r'
      {
        if 4 <= i < 4 + n {
          assert x[i] == core[i - 4];
        } else if 9 + n <= i {
          assert x[i] == body[i - 9 - n];
        }
      }
    }
    assert StripBom(x) == x;
    NormalizeEolFixes(x);
  }

  /**
   * The split of an encoded document: nothing before the opening
   * delimiter, the header block (which may have lost a blank line at
   * either end to the delimiters), and the body (possibly after the line
   * break that ends the closing delimiter line).
   */
  lemma SplitEncoded(s: string, core: string, body: string) returns (block: string, tail: string)
    requires |core| >= 1 && DelimiterFree(core) && DelimiterFree(body)
    requires s == "\n---\n" + core + "\n---\n" + body
    ensures Split(s) == ["", block, tail]
    ensures Trim(block) == Trim(core)
    ensures Trim(tail) == Trim(body)
  {
    var n := |core|;
    var a := OpeningDelimiter(s, core, body);
    var b, e := ClosingDelimiter(s, core, body);
    forall p | a <= p < b
      ensures DelimiterAt(s, p).None?
    {
      HeaderHasNoDelimiter(s, core, body, p);
    }
    BodyHasNoDelimiter(s, core, body, e);
    SplitThree(s, a, b, e);
    block := s[a..b];
    tail := s[e..];
    BlockTrims(s, core, body, a, b);
    BlockAndTail(s, core, body, e);
    TrimDropsLeadingBreak(tail, body);
  }

  /** The opening delimiter line ends at the header, or one line later when the header opens with a blank line. */
  lemma OpeningDelimiter(s: string, core: string, body: string) returns (a: nat)
    requires |core| >= 1
    requires s == "\n---\n" + core + "\n---\n" + body
    ensures a == 4 || a == 5
    ensures DelimiterAt(s, 0) == Some(a)
  {
    assert s[4] == '\n' && s[5] == core[0];
    assert OccursAt(s, "---", 1);
    a := if core[0] == '\n' then 5 else 4;
  }

  /** Two delimiters, at the start and at `b`, and none elsewhere: three pieces. */
  lemma SplitThree(s: string, a: nat, b: nat, e: nat)
    requires a <= b <= e <= |s|
    requires DelimiterAt(s, 0) == Some(a) && DelimiterAt(s, b) == Some(e)
    requires forall p :: a <= p < b ==> DelimiterAt(s, p).None?
    requires forall p :: e <= p <= |s| ==> DelimiterAt(s, p).None?
    ensures Split(s) == ["", s[a..b], s[e..]]
  {
    SplitSkips(s, a, a, b);
    SplitEnds(s, e, e);
    assert SplitFrom(s, a, b) == [s[a..b]] + SplitFrom(s, e, e);
  }

  /** The header piece is the header text with at most a line break on either side. */
  lemma BlockTrims(s: string, core: string, body: string, a: nat, b: nat)
    requires s == "\n---\n" + core + "\n---\n" + body
    requires a == 4 || a == 5
    requires b == 5 + |core| || b == 6 + |core|
    ensures Trim(s[a..b]) == Trim(core)
  {
    var n := |core|;
    assert s[4] == '\n' && s[5 + n] == '\n';
    assert s[5..5 + n] == core;
    SliceThree(s, a, 5, 5 + n, b);
    TrimAbsorbsBlanks(s[a..5], core, s[5 + n..b]);
  }

  lemma SliceThree(s: string, i: nat, j: nat, k: nat, l: nat)
    requires i <= j <= k <= l <= |s|
    ensures s[i..l] == s[i..j] + s[j..k] + s[k..l]
  {
  }

  /** The pieces of an encoded document after its closing delimiter. */
  lemma BlockAndTail(s: string, core: string, body: string, e: nat)
    requires s == "\n---\n" + core + "\n---\n" + body
    requires e == 9 + |core| || e == 10 + |core|
    ensures s[e..] == body || s[e..] == "\n" + body
  {
    var n := |core|;
    assert s[9 + n..] == "\n" + body;
    assert s[10 + n..] == body;
  }

  lemma TrimDropsLeadingBreak(tail: string, body: string)
    requires tail == body || tail == "\n" + body
    ensures Trim(tail) == Trim(body)
  {
    TrimAbsorbsBlanks("\n", body, "");
    assert "\n" + body + "" == "\n" + body;
  }

  /**
   * The closing delimiter starts right after the header text, or on the
   * header's own last line break when the header ends with a blank line.
   */
  lemma ClosingDelimiter(s: string, core: string, body: string) returns (b: nat, e: nat)
    requires |core| >= 1
    requires s == "\n---\n" + core + "\n---\n" + body
    ensures b == (if core[|core| - 1] == '\n' then 5 + |core| else 6 + |core|)
    ensures b <= e <= |s|
    ensures DelimiterAt(s, b) == Some(e)
    ensures e == 9 + |core| || e == 10 + |core|
  {
    var n := |core|;
    assert s[4 + n] == core[n - 1] && s[5 + n] == '\n' && s[6 + n] == '-' && s[9 + n] == '\n';
    assert OccursAt(s, "---", 6 + n) by {
      assert s[6 + n..9 + n] == "---";
    }
    e := if body == [] || body[0] == '\n' then 10 + n else 9 + n;
    if body != [] {
      assert s[10 + n] == body[0];
    }
    assert DashesThenEnd(s, 6 + n) == Some(e);
    b := if core[n - 1] == '\n' then 5 + n else 6 + n;
  }

  /** After the closing delimiter, no further delimiter is found. */
  lemma BodyHasNoDelimiter(s: string, core: string, body: string, e: nat)
    requires DelimiterFree(body)
    requires s == "\n---\n" + core + "\n---\n" + body
    requires e == 9 + |core| || e == 10 + |core|
    ensures forall p :: e <= p <= |s| ==> DelimiterAt(s, p).None?
  {
    var n := |core|;
    assert s[8 + n] == '-';
    assert s[9 + n..] == "\n" + body;
    forall p | e <= p <= |s|
      ensures DelimiterAt(s, p).None?
    {
      if 10 + n <= p < |s| {
        DelimiterIsLocal(s, 9 + n, p);
      }
    }
  }

  /**
   * Between the delimiters no delimiter starts: not on the opening line's
   * break, not inside the header text, and not on the break that ends it
   * unless that break closes a blank line.
   */
  lemma HeaderHasNoDelimiter(s: string, core: string, body: string, p: nat)
    requires |core| >= 1 && DelimiterFree(core)
    requires s == "\n---\n" + core + "\n---\n" + body
    requires 4 <= p <= 5 + |core|
    requires p == 5 + |core| ==> core[|core| - 1] != '\n'
    ensures DelimiterAt(s, p).None?
  {
    var n := |core|;
    if p == 4 {
      assert s[3] == '-';
    } else if p == 5 + n {
      assert s[4 + n] == core[n - 1];
    } else {
      var t := "\n" + core;
      assert s[4..5 + n] == t;
      assert s[5 + n] == '\n';
      HeaderIsInfix(s, t);
      assert DelimiterAt(t, p - 4).None?;
      DelimiterInHeader(s, t, p);
    }
  }

  lemma HeaderIsInfix(s: string, t: string)
    requires 4 + |t| <= |s| && s[4..4 + |t|] == t
    ensures forall i :: 0 <= i < |t| ==> s[i + 4] == t[i]
  {
    forall i | 0 <= i < |t|
      ensures s[i + 4] == t[i]
    {
      assert s[4..4 + |t|][i] == t[i];
    }
  }

  /**
   * A delimiter inside a block `t` that the text `s` holds at offset 4,
   * followed by a line break, would already be a delimiter of `t`.
   */
  lemma DelimiterInHeader(s: string, t: string, p: nat)
    requires 4 + |t| < |s| && s[4 + |t|] == '\n'
    requires forall i :: 0 <= i < |t| ==> s[i + 4] == t[i]
    requires 5 <= p < 4 + |t|
    requires DelimiterAt(t, p - 4).None?
    ensures DelimiterAt(s, p).None?
  {
    DashesInHeader(s, t, p);
    DashesInHeader(s, t, p + 1);
    assert s[p - 1] == t[p - 5] && s[p] == t[p - 4];
  }

  /** `---[\s]?$` at `q` inside the block held at offset 4 matches in the block as well. */
  lemma DashesInHeader(s: string, t: string, q: nat)
    requires 4 + |t| < |s| && s[4 + |t|] == '\n'
    requires forall i :: 0 <= i < |t| ==> s[i + 4] == t[i]
    requires 4 <= q <= 4 + |t|
    ensures DashesThenEnd(s, q).Some? ==> DashesThenEnd(t, q - 4).Some?
  {
    if DashesThenEnd(s, q).Some? {
      assert s[q..q + 3] == "---";
      assert q + 3 <= 4 + |t| by {
        assert forall i :: q <= i < q + 3 ==> s[q..q + 3][i - q] == s[i];
      }
      assert t[q - 4..q - 1] == s[q..q + 3];
      if q + 3 < 4 + |t| {
        assert s[q + 3] == t[q - 1];
        if q + 4 < 4 + |t| {
          assert s[q + 4] == t[q];
        }
      }
    }
  }

  // ---------------------------------------------------------------------
  // The cache in front of decode
  // ---------------------------------------------------------------------

  /** The cache key of a document: the hash of the text prefixed with the `frontmatter` namespace. */
  function CacheId(input: string, hash: string -> string): string
  {
    hash("frontmatter" + input)
  }

  /** Caching is used only when both flags are strictly `true`. */
  predicate CachingOn(decodeCache: Value, cacheEnabled: Value)
  {
    decodeCache == Bool(true) && cacheEnabled == Bool(true)
  }

  /**
   * `decode` with its cache: a truthy cached value under the document's key
   * is returned as it is; otherwise the document is decoded and, unless
   * decoding failed, stored under that key.
   */
  method Decode(input: string, codec: HeaderCodec, decodeCache: Value, cacheEnabled: Value,
                hash: string -> string, cache: CacheStore<Value>)
    returns (r: Option<Value>)
    requires cache.Valid()
    modifies cache
    ensures cache.Valid()
    ensures var key := CacheId(input, hash);
            var decoded := DecodeText(input, codec);
            var decodedNow := if decoded.Some? then Some(Arr(decoded.value)) else None;
            if !CachingOn(decodeCache, cacheEnabled) then
              r == decodedNow && cache.entries == old(cache.entries)
            else if key in old(cache.entries) && Truthy(old(cache.entries)[key]) then
              r == Some(old(cache.entries)[key]) && cache.entries == old(cache.entries)
            else
              r == decodedNow
              && cache.entries == (if r.Some? && cache.keeps then old(cache.entries)[key := r.value]
                                   else old(cache.entries))
  {
    if decodeCache == Bool(true) && cacheEnabled == Bool(true) {
      var key := CacheId(input, hash);
      var fromCache := cache.Get(key);
      if fromCache.Some? && Truthy(fromCache.value) {
        return fromCache;
      }
      var data := DecodeText(input, codec);
      if data.None? {
        return None;
      }
      cache.Set(key, Arr(data.value));
      return Some(Arr(data.value));
    }
    var data := DecodeText(input, codec);
    r := if data.Some? then Some(Arr(data.value)) else None;
  }

  /**
   * With caching on and a store that keeps entries, a second decode of the
   * same text returns what the first returned: the first result is a
   * non-empty array, hence truthy, and is found under the same key.
   */
  method DecodeTwice(input: string, codec: HeaderCodec, hash: string -> string, cache: CacheStore<Value>)
    returns (first: Option<Value>, second: Option<Value>)
    requires cache.Valid() && cache.keeps
    modifies cache
    ensures first.Some? ==> second == first
  {
    first := Decode(input, codec, Bool(true), Bool(true), hash, cache);
    second := Decode(input, codec, Bool(true), Bool(true), hash, cache);
  }
}
