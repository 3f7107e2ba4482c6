/** The tile server's rewrite of canonical asset hrefs to bucket objects
    (infra/titiler/stac_higher_titiler/hrefmap.py).

    A string is a sequence of bytes here: one char per byte of its UTF-8 form. */
module HrefMap {
  import opened Basics

  const FILE_SCHEME := "file://"
  const CANONICAL_PREFIX := "assets"
  const DEFAULT_BASE := "/api/assets"

  // What an asset's href field may hold: text, or anything else.
  datatype Href = Text(s: string) | NotText

  predicate IsHex(c: char) {
    '0' <= c <= '9' || 'a' <= c <= 'f' || 'A' <= c <= 'F'
  }

  function HexVal(c: char): (v: nat)
    requires IsHex(c)
    ensures v < 16
  {
    if '0' <= c <= '9' then c as int - '0' as int
    else if 'a' <= c <= 'f' then c as int - 'a' as int + 10
    else c as int - 'A' as int + 10
  }

  predicate StartsWithEscape(s: string) {
    |s| >= 3 && s[0] == '%' && IsHex(s[1]) && IsHex(s[2])
  }

  // Percent-decoding (RFC 3986, section 2.1); a '%' without two hex digits stays as it is.
  function Unquote(s: string): string {
    if s == "" then ""
    else if StartsWithEscape(s) then [(16 * HexVal(s[1]) + HexVal(s[2])) as char] + Unquote(s[3..])
    else [s[0]] + Unquote(s[1..])
  }

  predicate Legal(seg: string) {
    seg != "" && seg != "." && seg != ".." && '/' !in seg && '\\' !in seg
  }

  function Prefix(base: string): string {
    TrimEnd(base, '/') + "/"
  }

  // The object behind (collection, item, filename).
  function Key(bucket: string, c: string, i: string, f: string): string {
    "s3://" + bucket + "/" + CANONICAL_PREFIX + "/" + c + "/" + i + "/" + f
  }

  // The three decoded segments of what follows the base, when all are legal.
  function Triple(rest: string): Option<(string, string, string)> {
    var parts := SplitOn(Before(rest, '?'), '/');
    if |parts| != 3 then None
    else if !(Legal(Unquote(parts[0])) && Legal(Unquote(parts[1])) && Legal(Unquote(parts[2]))) then None
    else Some((Unquote(parts[0]), Unquote(parts[1]), Unquote(parts[2])))
  }

  // The three decoded segments of a canonical href, when `h` is one.
  function Segments(h: string, base: string): Option<(string, string, string)> {
    var candidate := RemovePrefix(h, FILE_SCHEME);
    if StartsWith(candidate, Prefix(base)) then Triple(candidate[|Prefix(base)|..]) else None
  }

  function MapCanonicalHref(href: Href, bucket: string, base: string): Href {
    if href.NotText? || href.s == "" then href
    else
      match Segments(href.s, base)
      case None => href
      case Some((collection, item, filename)) => Text(Key(bucket, collection, item, filename))
  }

  /* ---- What a canonical href is, independently of the rewrite ---- */

  // The digit written for `v`, in either case.
  ghost predicate Writes(c: char, v: int) {
    0 <= v < 16 && (c == "0123456789abcdef"[v] || c == "0123456789ABCDEF"[v])
  }

  // `e` starts with the escape for the byte `c`.
  ghost predicate EscapeFor(e: string, c: char) {
    |e| >= 3 && e[0] == '%' && exists high, low :: Writes(e[1], high) && Writes(e[2], low) && c as int == 16 * high + low
  }

  lemma {:induction false} EscapeWritten(e: string, c: char, high: int, low: int)
    requires |e| >= 3 && e[0] == '%' && Writes(e[1], high) && Writes(e[2], low) && c as int == 16 * high + low
    ensures EscapeFor(e, c)
  {
  }

  ghost predicate IsEscape(e: string) {
    |e| >= 3 && e[0] == '%' && exists high, low :: Writes(e[1], high) && Writes(e[2], low)
  }

  // `e` writes each byte of `s` either literally or as '%' and two hex digits of
  // either case; '%', '/' and '?' are never literal.
  ghost predicate Encodes(e: string, s: string) {
    if s == "" then e == ""
    else
      || (EscapeFor(e, s[0]) && Encodes(e[3..], s[1..]))
      || (e != "" && e[0] == s[0] && e[0] != '%' && e[0] != '/' && e[0] != '?' && Encodes(e[1..], s[1..]))
  }

  // `e` decodes to `s`: each escape is a byte, and everything else stands for itself.
  ghost predicate Decodes(e: string, s: string) {
    if e == "" then s == ""
    else if IsEscape(e) then s != "" && EscapeFor(e, s[0]) && Decodes(e[3..], s[1..])
    else s != "" && e[0] == s[0] && Decodes(e[1..], s[1..])
  }

  // `e` is one path segment that decodes to `s`.
  ghost predicate Spells(e: string, s: string) {
    '/' !in e && '?' !in e && Decodes(e, s)
  }

  lemma {:induction false} HexDigitsExactly(c: char, v: int)
    ensures Writes(c, v) <==> IsHex(c) && HexVal(c) == v
  {
  }

  lemma {:induction false} EscapesExactly(e: string, c: char)
    ensures IsEscape(e) <==> StartsWithEscape(e)
    ensures EscapeFor(e, c) <==> StartsWithEscape(e) && c as int == 16 * HexVal(e[1]) + HexVal(e[2])
  {
    if |e| >= 3 {
      forall v
        ensures Writes(e[1], v) <==> IsHex(e[1]) && HexVal(e[1]) == v
        ensures Writes(e[2], v) <==> IsHex(e[2]) && HexVal(e[2]) == v
      {
        HexDigitsExactly(e[1], v);
        HexDigitsExactly(e[2], v);
      }
      if StartsWithEscape(e) {
        HexDigitsExactly(e[1], HexVal(e[1]));
        HexDigitsExactly(e[2], HexVal(e[2]));
      }
    }
  }

  lemma {:induction false} DecodedExactly(e: string, s: string)
    ensures Unquote(e) == s <==> Decodes(e, s)
    decreases |e|
  {
    if e != "" {
      EscapesExactly(e, if s == "" then ' ' else s[0]);
      if StartsWithEscape(e) {
        DecodedExactly(e[3..], if s == "" then "" else s[1..]);
      } else {
        DecodedExactly(e[1..], if s == "" then "" else s[1..]);
      }
      assert s != "" ==> s == [s[0]] + s[1..];
    }
  }

  datatype Spelling = Spelling(scheme: string, c: string, i: string, f: string, query: string)

  function SpelledText(p: Spelling, base: string): string {
    p.scheme + (Prefix(base) + ((p.c + "/" + p.i + "/" + p.f) + p.query))
  }

  // `h` is an optional file scheme, the base, three segments spelling the triple and
  // an optional query.
  ghost predicate Written(h: string, base: string, p: Spelling, c: string, i: string, f: string) {
    && h == SpelledText(p, base)
    && (p.scheme == FILE_SCHEME || (p.scheme == "" && !StartsWith(h, FILE_SCHEME)))
    && (p.query == "" || p.query[0] == '?')
    && Spells(p.c, c) && Spells(p.i, i) && Spells(p.f, f)
  }

  ghost predicate CanonicalHref(h: string, base: string, c: string, i: string, f: string) {
    Legal(c) && Legal(i) && Legal(f) && exists p: Spelling :: Written(h, base, p, c, i, f)
  }

  /** Percent-encoding a segment in any way spells that segment. */
  lemma {:induction false} EncodesDecodes(e: string, s: string)
    requires Encodes(e, s)
    ensures Spells(e, s)
  {
    if s != "" {
      EscapesExactly(e, s[0]);
      if EscapeFor(e, s[0]) && Encodes(e[3..], s[1..]) {
        EncodesDecodes(e[3..], s[1..]);
        assert e == [e[0], e[1], e[2]] + e[3..];
        NoHexIsReserved(e[1]);
        NoHexIsReserved(e[2]);
      } else {
        EncodesDecodes(e[1..], s[1..]);
        assert e == [e[0]] + e[1..];
      }
    }
  }

  lemma {:induction false} NoHexIsReserved(c: char)
    requires IsHex(c)
    ensures c != '/' && c != '?'
  {
  }

  lemma {:induction false} SplitThree(a: string, b: string, c: string, sep: char)
    requires sep !in a && sep !in b && sep !in c
    ensures SplitOn(a + [sep] + b + [sep] + c, sep) == [a, b, c]
  {
    assert a + [sep] + b + [sep] + c == a + [sep] + (b + [sep] + c);
    SplitJoined(a, b + [sep] + c, sep);
    SplitJoined(b, c, sep);
    SplitJoined(c, "", sep);
  }

  lemma {:induction false} WrittenTriple(h: string, base: string, p: Spelling, c: string, i: string, f: string)
    requires Written(h, base, p, c, i, f)
    ensures Segments(h, base) == if Legal(c) && Legal(i) && Legal(f) then Some((c, i, f)) else None
    ensures h != ""
  {
    var path := p.c + "/" + p.i + "/" + p.f;
    var prefix := Prefix(base);
    var body := prefix + (path + p.query);
    assert RemovePrefix(h, FILE_SCHEME) == body by {
      assert h == p.scheme + body;
    }
    assert body[..|prefix|] == prefix && body[|prefix|..] == path + p.query;
    BeforeQuery(path, p.query, '?');
    SplitThree(p.c, p.i, p.f, '/');
    DecodedExactly(p.c, c);
    DecodedExactly(p.i, i);
    DecodedExactly(p.f, f);
  }

  lemma {:induction false} ThreeParts(rest: string, sep: char)
    requires |SplitOn(rest, sep)| == 3
    ensures var parts := SplitOn(rest, sep); rest == parts[0] + [sep] + parts[1] + [sep] + parts[2]
  {
    var parts := SplitOn(rest, sep);
    SplitJoins(rest, sep);
    assert parts == [parts[0], parts[1], parts[2]];
    JoinThree(parts[0], parts[1], parts[2], sep);
  }

  lemma {:induction false} Reassembled(h: string, base: string, p: Spelling, rest: string)
    requires StartsWith(RemovePrefix(h, FILE_SCHEME), Prefix(base))
    requires p.scheme == if StartsWith(h, FILE_SCHEME) then FILE_SCHEME else ""
    requires rest == p.c + "/" + p.i + "/" + p.f
    requires RemovePrefix(h, FILE_SCHEME)[|Prefix(base)|..] == rest + p.query
    ensures h == SpelledText(p, base)
  {
    var candidate := RemovePrefix(h, FILE_SCHEME);
    assert h == p.scheme + candidate;
    assert candidate == Prefix(base) + (rest + p.query);
  }

  lemma {:induction false} PartsSpell(rest: string)
    requires Triple(rest).Some?
    ensures var parts, t := SplitOn(Before(rest, '?'), '/'), Triple(rest).value;
            && |parts| == 3 && Legal(t.0) && Legal(t.1) && Legal(t.2)
            && Spells(parts[0], t.0) && Spells(parts[1], t.1) && Spells(parts[2], t.2)
  {
    var parts, t := SplitOn(Before(rest, '?'), '/'), Triple(rest).value;
    PartsAvoid(Before(rest, '?'), '/', '?');
    assert parts[0] in parts && parts[1] in parts && parts[2] in parts;
    DecodedExactly(parts[0], t.0);
    DecodedExactly(parts[1], t.1);
    DecodedExactly(parts[2], t.2);
  }

  lemma {:induction false} SegmentsCanonical(h: string, base: string) returns (p: Spelling)
    requires Segments(h, base).Some?
    ensures var t := Segments(h, base).value;
            Legal(t.0) && Legal(t.1) && Legal(t.2) && Written(h, base, p, t.0, t.1, t.2)
  {
    var tail := RemovePrefix(h, FILE_SCHEME)[|Prefix(base)|..];
    var rest := Before(tail, '?');
    var parts := SplitOn(rest, '/');
    BeforeIsPrefix(tail, '?');
    ThreeParts(rest, '/');
    PartsSpell(tail);
    p := Spelling(if StartsWith(h, FILE_SCHEME) then FILE_SCHEME else "", parts[0], parts[1], parts[2], tail[|rest|..]);
    assert tail == rest + p.query;
    Reassembled(h, base, p, rest);
  }

  lemma {:induction false} PartsAvoid(s: string, sep: char, c: char)
    requires c !in s
    ensures forall p :: p in SplitOn(s, sep) ==> c !in p
  {
    if s != "" {
      PartsAvoid(s[1..], sep, c);
    }
  }

  /** A text is rewritten exactly when it is a canonical href of some legal triple,
      and then to that triple's object; anything else passes through untouched. */
  lemma {:induction false} MapsExactlyCanonical(h: string, bucket: string, base: string, c: string, i: string, f: string)
    ensures CanonicalHref(h, base, c, i, f) ==> MapCanonicalHref(Text(h), bucket, base) == Text(Key(bucket, c, i, f))
    ensures (forall c, i, f :: !CanonicalHref(h, base, c, i, f)) ==> MapCanonicalHref(Text(h), bucket, base) == Text(h)
  {
    if CanonicalHref(h, base, c, i, f) {
      var p :| Written(h, base, p, c, i, f);
      WrittenTriple(h, base, p, c, i, f);
    }
    if Segments(h, base).Some? {
      var p := SegmentsCanonical(h, base);
      var t := Segments(h, base).value;
      assert CanonicalHref(h, base, t.0, t.1, t.2);
    }
  }

  /** The round trip, under every base: any percent-encoding of a legal triple, with either
      scheme and any query, maps to that triple's object. Only a base that itself makes the
      href start with the file scheme needs that scheme written out. */
  lemma {:induction false} EncodedHrefMaps(bucket: string, base: string, ec: string, ei: string, ef: string, c: string, i: string, f: string,
                                           fileScheme: bool, query: string)
    requires Legal(c) && Legal(i) && Legal(f)
    requires Encodes(ec, c) && Encodes(ei, i) && Encodes(ef, f)
    requires query == "" || query[0] == '?'
    requires var p := Spelling(if fileScheme then FILE_SCHEME else "", ec, ei, ef, query);
             fileScheme || !StartsWith(SpelledText(p, base), FILE_SCHEME)
    ensures var p := Spelling(if fileScheme then FILE_SCHEME else "", ec, ei, ef, query);
            MapCanonicalHref(Text(SpelledText(p, base)), bucket, base) == Text(Key(bucket, c, i, f))
  {
    EncodesDecodes(ec, c);
    EncodesDecodes(ei, i);
    EncodesDecodes(ef, f);
    var p := Spelling(if fileScheme then FILE_SCHEME else "", ec, ei, ef, query);
    var h := SpelledText(p, base);
    assert Written(h, base, p, c, i, f);
    MapsExactlyCanonical(h, bucket, base, c, i, f);
  }

  // The percent-encoding that escapes only what a segment cannot hold.
  function Encoded(s: string): (e: string)
    requires '/' !in s
    ensures Encodes(e, s)
  {
    if s == "" then ""
    else
      var rest := Encoded(s[1..]);
      if s[0] == '%' then
        assert ("%25" + rest)[3..] == rest;
        EscapeWritten("%25" + rest, s[0], 2, 5);
        "%25" + rest
      else if s[0] == '?' then
        assert ("%3F" + rest)[3..] == rest;
        EscapeWritten("%3F" + rest, s[0], 3, 15);
        "%3F" + rest
      else [s[0]] + rest
  }

  /** The text before the segments is the base without its trailing slashes, and one slash. */
  lemma {:induction false} BaseEndsInOneSlash(base: string, prefix: string)
    ensures Prefix(base) == prefix
            <==> exists trimmed, slashes :: base == trimmed + slashes && AllSlashes(slashes)
                   && (trimmed == "" || trimmed[|trimmed| - 1] != '/') && prefix == trimmed + "/"
  {
    var path := TrimEnd(base, '/');
    if Prefix(base) == prefix {
      TrimmedIs(base);
      assert base == path + base[|path|..];
    }
    if exists trimmed, slashes :: base == trimmed + slashes && AllSlashes(slashes)
         && (trimmed == "" || trimmed[|trimmed| - 1] != '/') && prefix == trimmed + "/" {
      var trimmed, slashes :| base == trimmed + slashes && AllSlashes(slashes)
        && (trimmed == "" || trimmed[|trimmed| - 1] != '/') && prefix == trimmed + "/";
      TrimmedSlashes(trimmed, slashes);
    }
  }

  // A segment that could lead elsewhere once it is part of a path.
  ghost predicate Escapes(seg: string) {
    seg in {"", ".", ".."} || exists k :: 0 <= k < |seg| && seg[k] in "/\\"
  }

  /** An href with a segment that decodes to nothing, to a dot or two, or to more than one
      path component is left alone, however it is spelled. */
  lemma {:induction false} EscapingSegmentsPassThrough(h: string, bucket: string, base: string, p: Spelling, c: string, i: string, f: string)
    requires Written(h, base, p, c, i, f) && (Escapes(c) || Escapes(i) || Escapes(f))
    ensures MapCanonicalHref(Text(h), bucket, base) == Text(h)
  {
    WrittenTriple(h, base, p, c, i, f);
  }

  /** And any other href so written is rewritten. */
  lemma {:induction false} PlainSegmentsAreMapped(h: string, bucket: string, base: string, p: Spelling, c: string, i: string, f: string)
    requires Written(h, base, p, c, i, f) && !Escapes(c) && !Escapes(i) && !Escapes(f)
    ensures MapCanonicalHref(Text(h), bucket, base) == Text("s3://" + bucket + "/assets/" + c + "/" + i + "/" + f)
  {
    WrittenTriple(h, base, p, c, i, f);
  }

  /** Every object of a legal triple is what some href maps to, whatever the base. */
  lemma {:induction false} EveryKeyIsReached(bucket: string, base: string, c: string, i: string, f: string) returns (h: Href)
    requires Legal(c) && Legal(i) && Legal(f)
    ensures MapCanonicalHref(h, bucket, base) == Text(Key(bucket, c, i, f))
  {
    h := Text(SpelledText(Spelling(FILE_SCHEME, Encoded(c), Encoded(i), Encoded(f), ""), base));
    EncodedHrefMaps(bucket, base, Encoded(c), Encoded(i), Encoded(f), c, i, f, true, "");
  }

  lemma {:induction false} FirstCharDiffers(s: string, t: string)
    requires s != "" && t != "" && s[0] != t[0]
    ensures !StartsWith(s, t)
  {
    assert |s| >= |t| ==> s[..|t|][0] == s[0];
  }

  function Head(bucket: string): string {
    "s3://" + bucket + "/" + CANONICAL_PREFIX + "/"
  }

  lemma {:induction false} KeyAfterHead(bucket: string, c: string, i: string, f: string)
    ensures Key(bucket, c, i, f) == Head(bucket) + (c + "/" + i + "/" + f)
  {
  }

  /** A mapped key splits back into exactly its triple. */
  lemma {:induction false} KeySplitsBack(bucket: string, c: string, i: string, f: string)
    requires Legal(c) && Legal(i) && Legal(f)
    ensures StartsWith(Key(bucket, c, i, f), Head(bucket))
    ensures SplitOn(Key(bucket, c, i, f)[|Head(bucket)|..], '/') == [c, i, f]
  {
    KeyAfterHead(bucket, c, i, f);
    SplitThree(c, i, f, '/');
  }

  /** Two canonical hrefs map to the same object exactly when they name the same triple. */
  lemma {:induction false} DistinctTriplesDistinctKeys(h1: string, h2: string, bucket: string, base: string,
                                    c1: string, i1: string, f1: string, c2: string, i2: string, f2: string)
    requires CanonicalHref(h1, base, c1, i1, f1) && CanonicalHref(h2, base, c2, i2, f2)
    ensures MapCanonicalHref(Text(h1), bucket, base) == MapCanonicalHref(Text(h2), bucket, base)
            <==> (c1 == c2 && i1 == i2 && f1 == f2)
  {
    MapsExactlyCanonical(h1, bucket, base, c1, i1, f1);
    MapsExactlyCanonical(h2, bucket, base, c2, i2, f2);
    KeySplitsBack(bucket, c1, i1, f1);
    KeySplitsBack(bucket, c2, i2, f2);
  }

  /* ---- Mapping twice ---- */

  function Slashes(s: string): nat {
    |SplitOn(s, '/')| - 1
  }

  lemma {:induction false} SlashesAdd(a: string, b: string)
    ensures Slashes(a + b) == Slashes(a) + Slashes(b)
    ensures '/' in a ==> SplitOn(a + b, '/')[0] == SplitOn(a, '/')[0]
  {
    if a == "" {
      assert a + b == b;
    } else {
      assert (a + b)[1..] == a[1..] + b;
      SlashesAdd(a[1..], b);
    }
  }

  lemma {:induction false} BeforeJoined(a: string, b: string, sep: char)
    ensures Before(a + b, sep) == if sep in a then Before(a, sep) else a + Before(b, sep)
  {
    if a == "" {
      assert a + b == b;
    } else {
      assert (a + b)[1..] == a[1..] + b;
      assert a == [a[0]] + a[1..];
      BeforeJoined(a[1..], b, sep);
    }
  }

  // Some object key of `bucket` is itself taken for a canonical href under `base`: the
  // base ends inside "s3://bucket/assets/", and what is left of that has room for three
  // segments.
  predicate TakesKeys(bucket: string, base: string) {
    StartsWith(Head(bucket), Prefix(base)) &&
    var left := Head(bucket)[|Prefix(base)|..];
    if '?' in left then Triple(left).Some?
    else Slashes(left) <= 1 || (Slashes(left) == 2 && Legal(Unquote(SplitOn(left, '/')[0])))
  }

  lemma {:induction false} KeyIsNoScheme(bucket: string, c: string, i: string, f: string)
    ensures RemovePrefix(Key(bucket, c, i, f), FILE_SCHEME) == Key(bucket, c, i, f)
  {
    FirstCharDiffers(Key(bucket, c, i, f), FILE_SCHEME);
  }

  lemma {:induction false} FewSlashesNoTriple(rest: string)
    requires Slashes(rest) <= 1
    ensures Triple(rest).None?
  {
    BeforeIsPrefix(rest, '?');
    assert rest == Before(rest, '?') + rest[|Before(rest, '?')|..];
    SlashesAdd(Before(rest, '?'), rest[|Before(rest, '?')|..]);
  }

  // What follows a slash inside three segments holds fewer slashes.
  lemma {:induction false} InsideTriple(c: string, i: string, f: string, inside: string, rest: string)
    requires Legal(c) && Legal(i) && Legal(f) && c + "/" + i + "/" + f == inside + rest
    requires inside != "" && inside[|inside| - 1] == '/'
    ensures Slashes(rest) <= 1
  {
    SplitThree(c, i, f, '/');
    SlashesAdd(inside, rest);
    assert inside == inside[..|inside| - 1] + "/";
    SlashesAdd(inside[..|inside| - 1], "/");
    SplitJoined("", "", '/');
    assert "" + ['/'] + "" == "/";
  }

  // A base that reaches into the segments leaves too few of them.
  lemma {:induction false} LongBaseLeavesKeys(bucket: string, base: string, c: string, i: string, f: string)
    requires Legal(c) && Legal(i) && Legal(f)
    requires |Prefix(base)| > |Head(bucket)| && StartsWith(Key(bucket, c, i, f), Prefix(base))
    ensures Segments(Key(bucket, c, i, f), base).None?
  {
    var k, prefix, head, triple := Key(bucket, c, i, f), Prefix(base), Head(bucket), c + "/" + i + "/" + f;
    KeyIsNoScheme(bucket, c, i, f);
    KeyAfterHead(bucket, c, i, f);
    var inside, rest := triple[..|prefix| - |head|], k[|prefix|..];
    assert triple == inside + rest;
    assert inside[|inside| - 1] == prefix[|prefix| - 1] == '/';
    InsideTriple(c, i, f, inside, rest);
    FewSlashesNoTriple(rest);
  }

  // A base that ends inside the head takes only the keys that TakesKeys describes.
  lemma {:induction false} ShortBaseLeavesKeys(bucket: string, base: string, c: string, i: string, f: string)
    requires StartsWith(Head(bucket), Prefix(base)) && !TakesKeys(bucket, base)
    ensures Segments(Key(bucket, c, i, f), base).None?
  {
    var k, prefix, head, triple := Key(bucket, c, i, f), Prefix(base), Head(bucket), c + "/" + i + "/" + f;
    KeyIsNoScheme(bucket, c, i, f);
    KeyAfterHead(bucket, c, i, f);
    var left := head[|prefix|..];
    assert k[|prefix|..] == left + triple;
    BeforeJoined(left, triple, '?');
    if '?' in left {
      assert Triple(left + triple) == Triple(left);
    } else {
      SlashesAdd(left, Before(triple, '?'));
      NoSlashNoParts(left);
      assert Triple(left + triple).None?;
    }
  }

  lemma {:induction false} NoSlashNoParts(s: string)
    ensures '/' in s <==> Slashes(s) > 0
  {
    if s != "" {
      NoSlashNoParts(s[1..]);
    }
  }

  lemma {:induction false} KeysStayUntaken(bucket: string, base: string, c: string, i: string, f: string)
    requires Legal(c) && Legal(i) && Legal(f) && !TakesKeys(bucket, base)
    ensures Segments(Key(bucket, c, i, f), base).None?
  {
    var k := Key(bucket, c, i, f);
    KeyIsNoScheme(bucket, c, i, f);
    KeyAfterHead(bucket, c, i, f);
    if StartsWith(k, Prefix(base)) {
      if |Prefix(base)| > |Head(bucket)| {
        LongBaseLeavesKeys(bucket, base, c, i, f);
      } else {
        assert Head(bucket)[..|Prefix(base)|] == k[..|Prefix(base)|];
        ShortBaseLeavesKeys(bucket, base, c, i, f);
      }
    }
  }

  // Some object key is mapped on to another.
  ghost predicate MovesAKey(bucket: string, base: string) {
    exists c, i, f :: Legal(c) && Legal(i) && Legal(f)
      && MapCanonicalHref(Text(Key(bucket, c, i, f)), bucket, base) != Text(Key(bucket, c, i, f))
  }

  lemma {:induction false} KeyMoved(bucket: string, base: string, c: string, i: string, f: string, t: (string, string, string))
    requires Legal(c) && Legal(i) && Legal(f) && Legal(t.0) && Legal(t.1) && Legal(t.2)
    requires Segments(Key(bucket, c, i, f), base) == Some(t) && t != (c, i, f)
    ensures MovesAKey(bucket, base)
  {
    KeySplitsBack(bucket, c, i, f);
    KeySplitsBack(bucket, t.0, t.1, t.2);
    assert [c, i, f][0] == c && [c, i, f][1] == i && [c, i, f][2] == f;
    assert MapCanonicalHref(Text(Key(bucket, c, i, f)), bucket, base) == Text(Key(bucket, t.0, t.1, t.2)) != Text(Key(bucket, c, i, f));
  }

  // The key of a triple, from where the base ends inside the head.
  lemma {:induction false} KeyBelowBase(bucket: string, base: string, c: string, i: string, f: string)
    requires StartsWith(Head(bucket), Prefix(base))
    ensures Segments(Key(bucket, c, i, f), base) == Triple(Head(bucket)[|Prefix(base)|..] + (c + "/" + i + "/" + f))
  {
    var k, head, prefix := Key(bucket, c, i, f), Head(bucket), Prefix(base);
    KeyIsNoScheme(bucket, c, i, f);
    KeyAfterHead(bucket, c, i, f);
    assert k[..|prefix|] == head[..|prefix|] == prefix;
    assert k[|prefix|..] == head[|prefix|..] + (c + "/" + i + "/" + f);
  }

  lemma {:induction false} TripleOf(a: string, b: string, c: string, query: string)
    requires '/' !in a && '/' !in b && '/' !in c && '?' !in a && '?' !in b && '?' !in c && (query == "" || query[0] == '?')
    ensures Triple(a + "/" + b + "/" + c + query)
            == if Legal(Unquote(a)) && Legal(Unquote(b)) && Legal(Unquote(c)) then Some((Unquote(a), Unquote(b), Unquote(c))) else None
  {
    BeforeQuery(a + "/" + b + "/" + c, query, '?');
    SplitThree(a, b, c, '/');
  }

  // What is left of the head after a base: nothing, "assets/", or one that ends in "/assets/".
  lemma {:induction false} LeftOfHead(bucket: string, base: string)
    requires StartsWith(Head(bucket), Prefix(base))
    ensures var left := Head(bucket)[|Prefix(base)|..];
            left == "" || left == CANONICAL_PREFIX + "/" || (|left| >= 8 && left[|left| - 8..] == "/" + CANONICAL_PREFIX + "/")
  {
    var head, prefix := Head(bucket), Prefix(base);
    var left, n := head[|prefix|..], |head|;
    assert head[n - 8..] == "/assets/";
    assert prefix[|prefix| - 1] == '/' && head[|prefix| - 1] == '/';
    if |left| < 8 {
      assert left == "/assets/"[8 - |left|..];
      assert head[|prefix| - 1] == "/assets/"[7 - |left|];
    } else {
      assert left[|left| - 8..] == head[n - 8..];
    }
  }

  lemma {:induction false} PlainDecodesToItself(s: string)
    requires '%' !in s
    ensures Unquote(s) == s
  {
    if s != "" {
      PlainDecodesToItself(s[1..]);
      assert s == [s[0]] + s[1..];
    }
  }

  // A base that ends before a '?' of the head reads one triple into every key.
  lemma {:induction false} FixedTripleMoves(bucket: string, base: string)
    requires TakesKeys(bucket, base) && '?' in Head(bucket)[|Prefix(base)|..]
    ensures MovesAKey(bucket, base)
  {
    var left := Head(bucket)[|Prefix(base)|..];
    var c := if Triple(left) == Some(("a", "i", "f")) then "b" else "a";
    KeyBelowBase(bucket, base, c, "i", "f");
    BeforeJoined(left, c + "/" + "i" + "/" + "f", '?');
    assert Triple(left + (c + "/" + "i" + "/" + "f")) == Triple(left);
    KeyMoved(bucket, base, c, "i", "f", Triple(left).value);
  }

  // The bucket's asset prefix as base decodes a key once more.
  lemma {:induction false} HeadMoves(bucket: string, base: string)
    requires Prefix(base) == Head(bucket)
    ensures MovesAKey(bucket, base)
  {
    assert Unquote("%41") == "A" by { assert "%41"[3..] == ""; }
    PlainDecodesToItself("i");
    KeyBelowBase(bucket, base, "%41", "i", "i");
    TripleOf("%41", "i", "i", "");
    assert "%41" + "/" + "i" + "/" + "i" + "" == "" + ("%41" + "/" + "i" + "/" + "i");
    KeyMoved(bucket, base, "%41", "i", "i", ("A", "i", "i"));
  }

  // Where the base leaves `left`, a key whose segments make `a/b/d` and a query of it moves.
  lemma {:induction false} CutKeyMoves(bucket: string, base: string, c: string, i: string, f: string, a: string, b: string, d: string, query: string)
    requires StartsWith(Head(bucket), Prefix(base)) && Legal(c) && Legal(i) && Legal(f)
    requires Head(bucket)[|Prefix(base)|..] + (c + "/" + i + "/" + f) == a + "/" + b + "/" + d + query && query != "" && query[0] == '?'
    requires '/' !in a && '/' !in b && '/' !in d && '?' !in a && '?' !in b && '?' !in d
    requires Legal(Unquote(a)) && Legal(Unquote(b)) && Legal(Unquote(d)) && (Unquote(b) != i || Unquote(d) != f)
    ensures MovesAKey(bucket, base)
  {
    KeyBelowBase(bucket, base, c, i, f);
    TripleOf(a, b, d, query);
    KeyMoved(bucket, base, c, i, f, (Unquote(a), Unquote(b), Unquote(d)));
  }

  // A legal segment that is written as it is.
  predicate Plain(s: string) {
    Legal(s) && '%' !in s && '?' !in s
  }

  // The bucket's root as base takes the asset prefix for a collection when a '?' cuts the item.
  lemma {:induction false} RootMoves(bucket: string, base: string, a: string, c: string, i: string, cut: string, f: string)
    requires StartsWith(Head(bucket), Prefix(base)) && Head(bucket)[|Prefix(base)|..] == a + "/"
    requires Plain(a) && Plain(c) && Plain(i) && Plain(f) && Legal(i + cut) && cut != "" && cut[0] == '?' && c != i
    ensures MovesAKey(bucket, base)
  {
    PlainDecodesToItself(a);
    PlainDecodesToItself(c);
    PlainDecodesToItself(i);
    RegroupItem(a, c, i, cut, f);
    CutKeyMoves(bucket, base, c, i + cut, f, a, c, i, cut + "/" + f);
  }

  lemma {:induction false} RegroupItem(a: string, c: string, i: string, cut: string, f: string)
    ensures a + "/" + (c + "/" + (i + cut) + "/" + f) == a + "/" + c + "/" + i + (cut + "/" + f)
  {
  }

  // One legal segment further up, a '?' that cuts the collection does the same.
  lemma {:induction false} ParentMoves(bucket: string, base: string, y: string, a: string, c: string, cut: string, i: string, f: string)
    requires StartsWith(Head(bucket), Prefix(base)) && Head(bucket)[|Prefix(base)|..] == y + "/" + a + "/"
    requires '/' !in y && '?' !in y && Legal(Unquote(y))
    requires Plain(a) && Plain(c) && Plain(i) && Plain(f) && Legal(c + cut) && cut != "" && cut[0] == '?' && a != i
    ensures MovesAKey(bucket, base)
  {
    PlainDecodesToItself(a);
    PlainDecodesToItself(c);
    RegroupCollection(y, a, c, cut, i, f);
    CutKeyMoves(bucket, base, c + cut, i, f, y, a, c, cut + "/" + i + "/" + f);
  }

  lemma {:induction false} RegroupCollection(y: string, a: string, c: string, cut: string, i: string, f: string)
    ensures y + "/" + a + "/" + (c + cut + "/" + i + "/" + f) == y + "/" + a + "/" + c + (cut + "/" + i + "/" + f)
  {
  }

  lemma {:induction false} SlashesOne(a: string)
    requires '/' !in a
    ensures Slashes(a + "/") == 1 && SplitOn(a + "/", '/')[0] == a
  {
    SplitJoined(a, "", '/');
    assert a + ['/'] + "" == a + "/";
  }

  lemma {:induction false} SlashesTwo(y: string, a: string)
    requires '/' !in a
    ensures Slashes(y + "/" + a + "/") == Slashes(y) + 2
    ensures '/' !in y ==> SplitOn(y + "/" + a + "/", '/')[0] == y
  {
    SlashesOne("");
    assert "" + "/" == "/";
    SlashesOne(a);
    SlashesAdd("/", a + "/");
    SlashesAdd(y, "/" + (a + "/"));
    assert y + "/" + a + "/" == y + ("/" + (a + "/"));
    if '/' !in y {
      SplitJoined(y, a + "/", '/');
      assert y + ['/'] + (a + "/") == y + "/" + a + "/";
    }
  }

  lemma {:induction false} TakenKeysMove(bucket: string, base: string)
    requires TakesKeys(bucket, base)
    ensures MovesAKey(bucket, base)
  {
    var left := Head(bucket)[|Prefix(base)|..];
    LeftOfHead(bucket, base);
    if '?' in left {
      FixedTripleMoves(bucket, base);
    } else if left == "" {
      HeadMoves(bucket, base);
    } else if left == CANONICAL_PREFIX + "/" {
      RootMoves(bucket, base, CANONICAL_PREFIX, "x", "y", "?z", "f");
    } else {
      var y := left[..|left| - 8];
      assert left == y + "/" + CANONICAL_PREFIX + "/";
      SlashesTwo(y, CANONICAL_PREFIX);
      NoSlashNoParts(y);
      ParentMoves(bucket, base, y, CANONICAL_PREFIX, "y", "?z", "i", "f");
    }
  }

  /** Mapping twice is mapping once for every href exactly when no object key of the bucket
      is taken for a canonical href under the base. */
  lemma {:induction false} MapIdempotentExactly(bucket: string, base: string)
    ensures (forall href :: MapCanonicalHref(MapCanonicalHref(href, bucket, base), bucket, base) == MapCanonicalHref(href, bucket, base))
            <==> !TakesKeys(bucket, base)
  {
    if TakesKeys(bucket, base) {
      TakenKeysMove(bucket, base);
      var c, i, f :| Legal(c) && Legal(i) && Legal(f)
        && MapCanonicalHref(Text(Key(bucket, c, i, f)), bucket, base) != Text(Key(bucket, c, i, f));
      var h := EveryKeyIsReached(bucket, base, c, i, f);
      assert MapCanonicalHref(MapCanonicalHref(h, bucket, base), bucket, base) != MapCanonicalHref(h, bucket, base);
    } else {
      forall href
        ensures MapCanonicalHref(MapCanonicalHref(href, bucket, base), bucket, base) == MapCanonicalHref(href, bucket, base)
      {
        if MapCanonicalHref(href, bucket, base) != href {
          var t := Segments(href.s, base).value;
          KeysStayUntaken(bucket, base, t.0, t.1, t.2);
        }
      }
    }
  }

  // Above a bucket without a slash there is only "s3:/".
  lemma {:induction false} BaseAboveBucket(bucket: string, base: string)
    requires '/' !in bucket && StartsWith(Head(bucket), Prefix(base)) && |Prefix(base)| <= 5 + |bucket|
    ensures Prefix(base) == "s3:/"
  {
    var head, prefix, trimmed := Head(bucket), Prefix(base), TrimEnd(base, '/');
    var n := |prefix|;
    assert prefix[n - 1] == head[n - 1] == '/';
    forall j | 5 <= j < 5 + |bucket|
      ensures head[j] != '/'
    {
      assert head[j] == bucket[j - 5];
    }
    assert head[3] == head[4] == '/';
    assert prefix[..n - 1] == trimmed == head[..n - 1];
    assert trimmed == "" || trimmed[n - 2] == head[n - 2] != '/';
  }

  // After which the first segment is empty.
  lemma {:induction false} NothingUnderScheme(bucket: string)
    requires '/' !in bucket
    ensures var left := "/" + (bucket + "/" + CANONICAL_PREFIX + "/");
            Slashes(left) == 3 && Triple(left).None?
  {
    var rest := bucket + "/" + CANONICAL_PREFIX + "/";
    SplitJoined(bucket, "", '/');
    SlashesTwo(bucket, CANONICAL_PREFIX);
    SlashesOne("");
    assert "" + "/" == "/";
    SlashesAdd("/", rest);
    BeforeJoined("/", rest, '?');
    assert Before("/", '?') == "/" by { assert "/"[1..] == ""; }
    SplitJoined("", Before(rest, '?'), '/');
    assert "" + ['/'] + Before(rest, '?') == "/" + Before(rest, '?');
  }

  /** For a bucket without a slash these are the bases that name its root or its asset
      prefix. */
  lemma {:induction false} PlainBucketTakesKeys(bucket: string, base: string)
    requires '/' !in bucket
    ensures TakesKeys(bucket, base) <==> Prefix(base) in {Head(bucket), "s3://" + bucket + "/"}
  {
    var head, prefix := Head(bucket), Prefix(base);
    assert head == "s3://" + bucket + "/" + (CANONICAL_PREFIX + "/");
    if prefix == head {
      assert head[|prefix|..] == "";
    } else if StartsWith(head, prefix) {
      LeftOfHead(bucket, base);
      var left := head[|prefix|..];
      assert head == prefix + left;
      if left == CANONICAL_PREFIX + "/" {
        SlashesOne(CANONICAL_PREFIX);
        assert prefix == head[..|head| - |left|] == "s3://" + bucket + "/";
      } else {
        BaseAboveBucket(bucket, base);
        NothingUnderScheme(bucket);
        assert left == "/" + (bucket + "/" + CANONICAL_PREFIX + "/");
      }
    }
  }

  /** The default base takes no key of any bucket. */
  lemma {:induction false} DefaultBaseTakesNoKey(bucket: string)
    ensures !TakesKeys(bucket, DEFAULT_BASE)
  {
    assert Prefix(DEFAULT_BASE)[0] == '/' && Head(bucket)[0] == 's';
    FirstCharDiffers(Head(bucket), Prefix(DEFAULT_BASE));
  }
}
