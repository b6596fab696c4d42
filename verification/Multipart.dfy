/**
 * The multipart/form-data parser of the backup import, on raw bytes.  Decoding of
 * header and passphrase bytes to text is left to the caller: the matched names are
 * ASCII, and the passphrase is returned as its bytes.
 */
module Multipart {
  import opened Wrappers

  type Byte = b: int | 0 <= b < 256
  type Bytes = seq<Byte>

  const CR: Byte := 13
  const LF: Byte := 10
  const DASH: Byte := 45
  const QUOTE: Byte := 34
  const CRLF: Bytes := [13, 10]
  const CRLF2: Bytes := [13, 10, 13, 10]
  const DASHES: Bytes := [45, 45]
  const NAME: Bytes := [110, 97, 109, 101, 61, 34]                              // name="
  const FILE: Bytes := [102, 105, 108, 101]                                     // file
  const PASSPHRASE: Bytes := [112, 97, 115, 115, 112, 104, 114, 97, 115, 101]   // passphrase

  // ---------------------------------------------------------------- searching

  predicate MatchesAt(haystack: Bytes, needle: Bytes, i: int) {
    0 <= i <= |haystack| - |needle| && haystack[i..i + |needle|] == needle
  }

  function IndexFrom(haystack: Bytes, needle: Bytes, offset: nat): int
    decreases |haystack| + 1 - offset
  {
    if offset + |needle| > |haystack| then -1
    else if MatchesAt(haystack, needle, offset) then offset
    else IndexFrom(haystack, needle, offset + 1)
  }

  /** `r` is the first match at or after the offset, or -1 if there is none. */
  ghost predicate IsFirst(haystack: Bytes, needle: Bytes, offset: nat, r: int) {
    if r < 0 then r == -1 && forall i | i >= offset :: !MatchesAt(haystack, needle, i)
    else offset <= r && MatchesAt(haystack, needle, r) && forall i | offset <= i < r :: !MatchesAt(haystack, needle, i)
  }

  lemma {:induction false} IndexFromIsFirst(haystack: Bytes, needle: Bytes, offset: nat)
    ensures IsFirst(haystack, needle, offset, IndexFrom(haystack, needle, offset))
    decreases |haystack| + 1 - offset
  {
    if offset + |needle| <= |haystack| && !MatchesAt(haystack, needle, offset) {
      IndexFromIsFirst(haystack, needle, offset + 1);
    }
  }

  lemma FirstIsUnique(haystack: Bytes, needle: Bytes, offset: nat, r: int)
    requires IsFirst(haystack, needle, offset, r)
    ensures IndexFrom(haystack, needle, offset) == r
  {
    IndexFromIsFirst(haystack, needle, offset);
  }

  method BufferIndexOf(haystack: Bytes, needle: Bytes, offset: nat) returns (r: int)
    ensures needle == [] ==> r == offset
    ensures needle != [] ==> IsFirst(haystack, needle, offset, r)
  {
    if |needle| == 0 {
      return offset;
    }
    var limit := |haystack| - |needle|;
    var i := offset;
    while i <= limit
      invariant i >= offset
      invariant forall k | offset <= k < i :: !MatchesAt(haystack, needle, k)
    {
      var matched := true;
      for j := 0 to |needle|
        invariant matched && haystack[i..i + j] == needle[..j]
      {
        if haystack[i + j] != needle[j] {
          matched := false;
          assert haystack[i..i + |needle|][j] == haystack[i + j];
          break;
        }
        assert haystack[i..i + j + 1] == haystack[i..i + j] + [haystack[i + j]];
      }
      if matched {
        return i;
      }
      i := i + 1;
    }
    return -1;
  }

  // ---------------------------------------------------------------- splitting

  function Split(buf: Bytes, sep: Bytes): seq<Bytes>
    requires sep != []
    decreases |buf|
  {
    IndexFromIsFirst(buf, sep, 0);
    var i := IndexFrom(buf, sep, 0);
    if i < 0 then [buf] else [buf[..i]] + Split(buf[i + |sep|..], sep)
  }

  /** Every part followed by the separator. */
  function Prefixed(parts: seq<Bytes>, sep: Bytes): Bytes
    decreases |parts|
  {
    if parts == [] then [] else Prefixed(parts[..|parts| - 1], sep) + (parts[|parts| - 1] + sep)
  }

  function Join(parts: seq<Bytes>, sep: Bytes): Bytes
    requires parts != []
  {
    Prefixed(parts[..|parts| - 1], sep) + parts[|parts| - 1]
  }

  lemma {:induction false} PrefixedCons(head: Bytes, tail: seq<Bytes>, sep: Bytes)
    ensures Prefixed([head] + tail, sep) == head + sep + Prefixed(tail, sep)
    decreases |tail|
  {
    var parts := [head] + tail;
    if tail == [] {
      assert parts[..0] == [];
    } else {
      assert parts[..|parts| - 1] == [head] + tail[..|tail| - 1];
      PrefixedCons(head, tail[..|tail| - 1], sep);
    }
  }

  lemma JoinCons(head: Bytes, tail: seq<Bytes>, sep: Bytes)
    requires tail != []
    ensures Join([head] + tail, sep) == head + sep + Join(tail, sep)
  {
    var parts, n := [head] + tail, |tail| - 1;
    assert parts[..|parts| - 1] == [head] + tail[..n];
    PrefixedCons(head, tail[..n], sep);
  }

  /** In `part + sep` the separator first occurs where it was put. */
  ghost predicate Clean(part: Bytes, sep: Bytes) {
    forall i | 0 <= i < |part| :: !MatchesAt(part + sep, sep, i)
  }

  /** The separator does not occur at all. */
  ghost predicate Free(buf: Bytes, sep: Bytes) {
    forall i | 0 <= i <= |buf| :: !MatchesAt(buf, sep, i)
  }

  /** Parts that a separator-joined buffer gives back: all clean, the last without any separator. */
  ghost predicate Separable(parts: seq<Bytes>, sep: Bytes) {
    && parts != []
    && (forall k | 0 <= k < |parts| - 1 :: Clean(parts[k], sep))
    && Free(parts[|parts| - 1], sep)
  }

  lemma SeparableCons(head: Bytes, tail: seq<Bytes>, sep: Bytes)
    requires Clean(head, sep) && Separable(tail, sep)
    ensures Separable([head] + tail, sep) && Join([head] + tail, sep) == head + sep + Join(tail, sep)
  {
    var parts := [head] + tail;
    JoinCons(head, tail, sep);
    forall k | 0 <= k < |parts| - 1
      ensures Clean(parts[k], sep)
    {
      if k > 0 {
        assert parts[k] == tail[k - 1];
      }
    }
  }

  lemma MatchInPrefix(a: Bytes, b: Bytes, needle: Bytes, i: int)
    requires 0 <= i && i + |needle| <= |a|
    ensures MatchesAt(a + b, needle, i) == MatchesAt(a, needle, i)
  {
    assert (a + b)[i..i + |needle|] == a[i..i + |needle|];
  }

  /** Splitting gives separable parts that rejoin to the buffer. */
  lemma {:induction false} SplitRejoins(buf: Bytes, sep: Bytes)
    requires sep != []
    ensures Separable(Split(buf, sep), sep) && Join(Split(buf, sep), sep) == buf
    decreases |buf|
  {
    IndexFromIsFirst(buf, sep, 0);
    var i := IndexFrom(buf, sep, 0);
    if i >= 0 {
      var head, rest := buf[..i], buf[i + |sep|..];
      SplitRejoins(rest, sep);
      HeadIsClean(buf, sep, i);
      assert buf == head + sep + rest;
      assert Split(buf, sep) == [head] + Split(rest, sep);
      hide *;
      SeparableCons(head, Split(rest, sep), sep);
    } else {
      assert Join([buf], sep) == buf;
    }
  }

  lemma HeadIsClean(buf: Bytes, sep: Bytes, i: int)
    requires i >= 0 && IsFirst(buf, sep, 0, i)
    ensures Clean(buf[..i], sep)
  {
    var head, rest := buf[..i], buf[i + |sep|..];
    assert buf == head + sep + rest;
    forall k | 0 <= k < |head|
      ensures !MatchesAt(head + sep, sep, k)
    {
      MatchInPrefix(head + sep, rest, sep, k);
    }
  }

  /** Conversely, separable parts are exactly what splitting their join returns. */
  lemma {:induction false} SplitOfJoin(parts: seq<Bytes>, sep: Bytes)
    requires sep != [] && Separable(parts, sep)
    ensures Split(Join(parts, sep), sep) == parts
    decreases |parts|
  {
    var buf := Join(parts, sep);
    if |parts| == 1 {
      assert buf == parts[0];
      FirstIsUnique(buf, sep, 0, -1);
    } else {
      var head, rest := parts[0], Join(parts[1..], sep);
      assert parts == [head] + parts[1..];
      JoinCons(head, parts[1..], sep);
      assert buf == head + sep + rest;
      forall k | 0 <= k < |head|
        ensures !MatchesAt(buf, sep, k)
      {
        MatchInPrefix(head + sep, rest, sep, k);
      }
      assert buf[|head|..|head| + |sep|] == sep;
      FirstIsUnique(buf, sep, 0, |head|);
      assert buf[..|head|] == head && buf[|head| + |sep|..] == rest;
      SplitOfJoin(parts[1..], sep);
    }
  }

  lemma MatchInSuffix(buf: Bytes, start: nat, needle: Bytes, i: int)
    requires start <= |buf| && i >= 0
    ensures MatchesAt(buf[start..], needle, i) == MatchesAt(buf, needle, start + i)
  {
    if i <= |buf| - start - |needle| {
      assert buf[start..][i..i + |needle|] == buf[start + i..start + i + |needle|];
    }
  }

  lemma FirstInSuffix(buf: Bytes, start: nat, sep: Bytes, r: int)
    requires start <= |buf| && IsFirst(buf, sep, start, r)
    ensures IsFirst(buf[start..], sep, 0, if r < 0 then -1 else r - start)
  {
    forall i | i >= 0
      ensures MatchesAt(buf[start..], sep, i) == MatchesAt(buf, sep, start + i)
    {
      MatchInSuffix(buf, start, sep, i);
    }
  }

  /** The stretch up to the next separator is clean. */
  lemma NextIsClean(buf: Bytes, start: nat, sep: Bytes, idx: int)
    requires start <= |buf| && idx >= 0 && IsFirst(buf, sep, start, idx)
    ensures Clean(buf[start..idx], sep)
  {
    FirstInSuffix(buf, start, sep, idx);
    HeadIsClean(buf[start..], sep, idx - start);
    assert buf[start..][..idx - start] == buf[start..idx];
  }

  method SplitBuffer(buf: Bytes, sep: Bytes) returns (parts: seq<Bytes>)
    requires sep != []   // with an empty separator the loop would never advance
    ensures parts == Split(buf, sep)
  {
    parts := [];
    var start := 0;
    while start <= |buf|
      invariant 0 <= start <= |buf|
      invariant Prefixed(parts, sep) == buf[..start]
      invariant forall k | 0 <= k < |parts| :: Clean(parts[k], sep)
      decreases |buf| - start
    {
      var idx := BufferIndexOf(buf, sep, start);
      if idx == -1 {
        FirstInSuffix(buf, start, sep, -1);
        assert (parts + [buf[start..]])[..|parts|] == parts;
        assert buf == buf[..start] + buf[start..];
        parts := parts + [buf[start..]];
        SplitOfJoin(parts, sep);
        break;
      }
      NextIsClean(buf, start, sep, idx);
      assert (parts + [buf[start..idx]])[..|parts|] == parts;
      assert buf[..idx + |sep|] == buf[..start] + (buf[start..idx] + sep);
      parts := parts + [buf[start..idx]];
      start := idx + |sep|;
    }
  }

  // ---------------------------------------------------------------- one part

  function Lower(b: Byte): Byte { if 65 <= b <= 90 then b + 32 else b }

  /** `name="`, case-insensitively. */
  predicate NameAt(h: Bytes, i: nat) {
    i + 6 <= |h| && forall k | 0 <= k < 6 :: Lower(h[i + k]) == NAME[k]
  }

  function QuoteFrom(h: Bytes, i: nat): int
    decreases |h| + 1 - i
  {
    if i >= |h| then -1 else if h[i] == QUOTE then i else QuoteFrom(h, i + 1)
  }

  /** The first match of /name="([^"]+)"/i at or after `i`: its captured group. */
  function NameFrom(h: Bytes, i: nat): Option<Bytes>
    decreases |h| + 1 - i
  {
    if i >= |h| then None
    else
      var q := QuoteFrom(h, i + 6);
      if NameAt(h, i) && q > i + 6 && q <= |h| then Some(h[i + 6..q]) else NameFrom(h, i + 1)
  }

  function StripLeading(part: Bytes): Bytes { if |part| >= 2 && part[..2] == CRLF then part[2..] else part }

  function StripTrailing(body: Bytes): Bytes {
    if |body| >= 2 && body[|body| - 2..] == CRLF then body[..|body| - 2] else body
  }

  /** The field name and body of one part, if it is a field. */
  function FieldOf(part: Bytes): Option<(Bytes, Bytes)> {
    var content := StripLeading(part);
    var headerEnd := IndexFrom(content, CRLF2, 0);
    IndexFromIsFirst(content, CRLF2, 0);
    if |content| < 4 || content[..2] == DASHES || headerEnd < 0 then None
    else
      match NameFrom(content[..headerEnd], 0)
      case None => None
      case Some(name) => Some((name, StripTrailing(content[headerEnd + 4..])))
  }

  /** The parser's two results; an absent field stays `None`. */
  datatype Form = Form(file: Option<Bytes>, passphrase: Option<Bytes>)

  function Absorb(form: Form, part: Bytes): Form {
    match FieldOf(part)
    case None => form
    case Some((name, body)) =>
      if name == FILE then form.(file := Some(body))
      else if name == PASSPHRASE then form.(passphrase := Some(body))
      else form
  }

  function AbsorbAll(form: Form, parts: seq<Bytes>): Form
    decreases |parts|
  {
    if parts == [] then form else Absorb(AbsorbAll(form, parts[..|parts| - 1]), parts[|parts| - 1])
  }

  function Parse(body: Bytes, boundary: Bytes): Form {
    AbsorbAll(Form(None, None), Split(body, DASHES + boundary))
  }

  /** The body of the parser's loop, up to the two field names it knows. */
  method ReadPart(part: Bytes) returns (field: Option<(Bytes, Bytes)>)
    ensures field == FieldOf(part)
  {
    hide NameFrom, IndexFrom;
    var content := part;
    if |content| >= 2 && content[0] == CR && content[1] == LF {
      assert content[..2] == CRLF;
      content := content[2..];
    }
    assert content == StripLeading(part);
    if |content| < 4 {
      return None;
    }
    if content[0] == DASH && content[1] == DASH {
      assert content[..2] == DASHES;
      return None;
    }
    assert content[..2] != DASHES;
    var headerEnd := BufferIndexOf(content, CRLF2, 0);
    FirstIsUnique(content, CRLF2, 0, headerEnd);
    hide IsFirst;
    if headerEnd == -1 {
      return None;
    }
    var bodyContent := content[headerEnd + 4..];
    if |bodyContent| >= 2 && bodyContent[|bodyContent| - 2] == CR && bodyContent[|bodyContent| - 1] == LF {
      assert bodyContent[|bodyContent| - 2..] == CRLF;
      bodyContent := bodyContent[..|bodyContent| - 2];
    }
    assert bodyContent == StripTrailing(content[headerEnd + 4..]);
    match NameFrom(content[..headerEnd], 0) {
      case None => return None;
      case Some(name) => return Some((name, bodyContent));
    }
  }

  method ParseMultipart(body: Bytes, boundary: Bytes) returns (fileBuffer: Option<Bytes>, passphrase: Option<Bytes>)
    ensures Form(fileBuffer, passphrase) == Parse(body, boundary)
  {
    hide FieldOf, Split;
    var parts := SplitBuffer(body, DASHES + boundary);
    fileBuffer, passphrase := None, None;
    for p := 0 to |parts|
      invariant Form(fileBuffer, passphrase) == AbsorbAll(Form(None, None), parts[..p])
    {
      assert parts[..p + 1][..p] == parts[..p];
      var field := ReadPart(parts[p]);
      if field.None? {
        continue;
      }
      var (name, bodyContent) := field.value;
      if name == FILE {
        fileBuffer := Some(bodyContent);
      } else if name == PASSPHRASE {
        passphrase := Some(bodyContent);
      }
    }
    assert parts[..|parts|] == parts;
  }

  // ---------------------------------------------------------------- a conforming encoder

  /**
   * A form field.  Its header block is `lead name="..." trail`: `lead` is what precedes
   * the name parameter (`Content-Disposition: form-data; `), `trail` whatever follows it
   * (a filename parameter, further header lines).
   */
  datatype Field = Field(lead: Bytes, name: Bytes, trail: Bytes, body: Bytes)
  {
    function Header(): Bytes { lead + NAME + name + [QUOTE] + trail }

    /** The field as it stands between two boundary delimiters. */
    function Part(): Bytes { CRLF + Header() + CRLF2 + body + CRLF }
  }

  ghost predicate Occurs(needle: Bytes, haystack: Bytes) { exists i :: MatchesAt(haystack, needle, i) }

  /** RFC 7578 section 4: one name, in quotes, in a header block that ends at its first empty line. */
  ghost predicate Framed(f: Field) {
    && f.name != [] && QUOTE !in f.name
    && !(DASHES <= f.Header())
    && IsFirst(f.Header() + CRLF2, CRLF2, 0, |f.Header()|)
  }

  /** The name the parser sees: one that the pattern finds from the lead on hides the field's own. */
  function NameSeen(f: Field): Bytes {
    match NameFrom(f.lead + NAME, 0)
    case Some(name) => name
    case None => f.name
  }

  /** Nothing before the name parameter is taken for a name, unless it is the same name. */
  predicate NameReads(f: Field) { NameFrom(f.lead + NAME, 0) in {None, Some(f.name)} }

  ghost predicate Conforming(f: Field) { Framed(f) && NameReads(f) }

  /** RFC 2046 section 5.1.1: the delimiter line occurs nowhere inside a part. */
  ghost predicate BoundaryFits(boundary: Bytes, fields: seq<Field>) {
    && boundary != [] && CR !in boundary && LF !in boundary
    && forall f | f in fields :: !Occurs(DASHES + boundary, f.Header()) && !Occurs(DASHES + boundary, f.body)
  }

  function Encode(boundary: Bytes, fields: seq<Field>): Bytes {
    if fields == [] then DASHES + boundary + DASHES + CRLF
    else DASHES + boundary + fields[0].Part() + Encode(boundary, fields[1..])
  }

  /** The body of the last field of that name. */
  function Latest(fields: seq<Field>, name: Bytes): Option<Bytes> {
    if fields == [] then None
    else
      var f := fields[|fields| - 1];
      if f.name == name then Some(f.body) else Latest(fields[..|fields| - 1], name)
  }

  /** The same, by the names the parser sees. */
  function LatestSeen(fields: seq<Field>, name: Bytes): Option<Bytes> {
    if fields == [] then None
    else
      var f := fields[|fields| - 1];
      if NameSeen(f) == name then Some(f.body) else LatestSeen(fields[..|fields| - 1], name)
  }

  lemma {:induction false} QuoteIsNext(h: Bytes, i: nat, q: nat)
    requires i <= q < |h| && h[q] == QUOTE && forall k | i <= k < q :: h[k] != QUOTE
    ensures QuoteFrom(h, i) == q
    decreases q - i
  {
    if i < q {
      QuoteIsNext(h, i + 1, q);
    }
  }

  lemma HeaderLayout(f: Field)
    ensures var h, n := f.Header(), |f.lead|;
            var q := n + 6 + |f.name|;
            && |h| == q + 1 + |f.trail| && h[q] == QUOTE
            && (forall k | 0 <= k < n :: h[k] == f.lead[k])
            && (forall k | n <= k < n + 6 :: h[k] == NAME[k - n])
            && (forall k | n + 6 <= k < q :: h[k] == f.name[k - n - 6])
            && h[n + 6..q] == f.name
  {
  }

  /** Exactly what the pattern captures: a name found from the lead on, otherwise the field's own. */
  lemma {:induction false} NameIsFound(f: Field, i: nat)
    requires f.name != [] && QUOTE !in f.name && i <= |f.lead|
    ensures NameFrom(f.Header(), i) == match NameFrom(f.lead + NAME, i) case Some(name) => Some(name) case None => Some(f.name)
    decreases |f.lead| - i
  {
    hide NameAt, QuoteFrom, Field.Header;
    if i < |f.lead| {
      SameSearch(f, i);
      NameIsFound(f, i + 1);
    } else {
      NameStands(f);
      NothingAfterLead(f);
    }
  }

  /** Up to the name parameter the pattern looks at nothing that follows its opening quote. */
  lemma SameSearch(f: Field, i: nat)
    requires i < |f.lead|
    ensures var h, g := f.Header(), f.lead + NAME;
            var q := QuoteFrom(g, i + 6);
            && i < |g| <= |h| && QuoteFrom(h, i + 6) == q && i + 6 <= q < |g|
            && NameAt(h, i) == NameAt(g, i) && h[i + 6..q] == g[i + 6..q]
  {
    var h, g, rest := f.Header(), f.lead + NAME, f.name + [QUOTE] + f.trail;
    assert h == g + rest;
    assert g[|g| - 1] == QUOTE;
    hide Field.Header;
    QuoteInPrefix(g, rest, i + 6);
    assert forall j | 0 <= j < |g| :: h[j] == g[j];
  }

  lemma {:induction false} QuoteInPrefix(g: Bytes, rest: Bytes, j: nat)
    requires j < |g| && g[|g| - 1] == QUOTE
    ensures QuoteFrom(g + rest, j) == QuoteFrom(g, j) && j <= QuoteFrom(g, j) < |g|
    decreases |g| - j
  {
    assert (g + rest)[j] == g[j];
    if g[j] != QUOTE {
      QuoteInPrefix(g, rest, j + 1);
    }
  }

  lemma NothingAfterLead(f: Field)
    ensures NameFrom(f.lead + NAME, |f.lead|) == None
  {
    var g := f.lead + NAME;
    assert QuoteFrom(g, |f.lead| + 6) == -1;
    TooShortForName(g, |f.lead| + 1);
  }

  lemma {:induction false} TooShortForName(g: Bytes, i: nat)
    requires i + 6 > |g|
    ensures NameFrom(g, i) == None
    decreases |g| + 1 - i
  {
    if i < |g| {
      TooShortForName(g, i + 1);
    }
  }

  /** Two checks that suffice: the lead holds no `name="`, for which it is enough that it holds no quote. */
  lemma LeadWithoutName(f: Field)
    requires forall k: nat | k < |f.lead| :: !NameAt(f.lead + NAME, k)
    ensures NameReads(f)
  {
    SkipsNoNames(f.lead + NAME, 0, |f.lead|);
    NothingAfterLead(f);
  }

  lemma LeadWithoutQuote(f: Field)
    requires QUOTE !in f.lead
    ensures NameReads(f)
  {
    forall k: nat | k < |f.lead|
      ensures !NameAt(f.lead + NAME, k)
    {
      var g, n := f.lead + NAME, |f.lead|;
      if k + 5 < n {
        assert g[k + 5] == f.lead[k + 5] && f.lead[k + 5] in f.lead;
      } else {
        assert g[k + 5] == NAME[k + 5 - n];
      }
      assert Lower(g[k + 5]) != NAME[5];
    }
    LeadWithoutName(f);
  }

  lemma NameStands(f: Field)
    requires f.name != [] && QUOTE !in f.name
    ensures var h, n := f.Header(), |f.lead|;
            && NameAt(h, n) && QuoteFrom(h, n + 6) == n + 6 + |f.name| && n + 6 + |f.name| < |h|
            && h[n + 6..n + 6 + |f.name|] == f.name
  {
    var h, n := f.Header(), |f.lead|;
    HeaderLayout(f);
    hide Field.Header;
    forall k | n + 6 <= k < n + 6 + |f.name|
      ensures h[k] != QUOTE
    {
      assert h[k] == f.name[k - n - 6];
    }
    QuoteIsNext(h, n + 6, n + 6 + |f.name|);
    assert forall k | 0 <= k < 6 :: h[n + k] == NAME[k];
  }

  /** The parser reads every framed field's body, under the name it sees. */
  lemma FieldIsRead(f: Field)
    requires Framed(f)
    ensures FieldOf(f.Part()) == Some((NameSeen(f), f.body))
  {
    var h := f.Header();
    var content := h + CRLF2 + (f.body + CRLF);
    PartLayout(f);
    HeaderEnds(h, f.body + CRLF);
    BodyIsStripped(f.body);
    NameIsFound(f, 0);
    hide Field.Header, Field.Part, IndexFrom, NameFrom, StripTrailing, StripLeading;
  }

  /** So it reads a field back if and only if nothing before its name is taken for another name. */
  lemma FieldReadBack(f: Field)
    requires Framed(f)
    ensures FieldOf(f.Part()) == Some((f.name, f.body)) <==> NameReads(f)
  {
    hide *;
    FieldIsRead(f);
    SeenIffReads(f);
  }

  lemma SeenIffReads(f: Field)
    ensures NameSeen(f) == f.name <==> NameReads(f)
  {
    hide NameFrom;
  }

  lemma PartLayout(f: Field)
    requires Framed(f)
    ensures var h := f.Header();
            var content := h + CRLF2 + (f.body + CRLF);
            && StripLeading(f.Part()) == content && |content| >= 4 && content[..2] != DASHES
            && content[..|h|] == h && content[|h| + 4..] == f.body + CRLF
  {
    var h := f.Header();
    var content := h + CRLF2 + (f.body + CRLF);
    HeaderLayout(f);
    hide Field.Header, IsFirst;
    assert f.Part() == CRLF + content;
    assert f.Part()[..2] == CRLF && f.Part()[2..] == content;
    assert content[..2] == h[..2];
  }

  lemma BodyIsStripped(body: Bytes)
    ensures StripTrailing(body + CRLF) == body
  {
    assert (body + CRLF)[|body|..] == CRLF;
    assert (body + CRLF)[..|body|] == body;
  }

  lemma HeaderEnds(h: Bytes, rest: Bytes)
    requires IsFirst(h + CRLF2, CRLF2, 0, |h|)
    ensures IndexFrom(h + CRLF2 + rest, CRLF2, 0) == |h|
  {
    forall i | 0 <= i <= |h|
      ensures MatchesAt(h + CRLF2 + rest, CRLF2, i) == MatchesAt(h + CRLF2, CRLF2, i)
    {
      MatchInPrefix(h + CRLF2, rest, CRLF2, i);
    }
    FirstIsUnique(h + CRLF2 + rest, CRLF2, 0, |h|);
  }

  /** A match never covers a CR or LF when the separator has none. */
  lemma MatchAvoids(buf: Bytes, sep: Bytes, i: int, p: int)
    requires MatchesAt(buf, sep, i) && CR !in sep && LF !in sep
    requires 0 <= p < |buf| && buf[p] in {CR, LF}
    ensures p < i || p >= i + |sep|
  {
    if i <= p < i + |sep| {
      MatchedByte(buf, sep, i, p);
    }
  }

  lemma MatchedByte(buf: Bytes, sep: Bytes, i: int, p: int)
    requires MatchesAt(buf, sep, i) && i <= p < i + |sep|
    ensures buf[p] in sep
  {
    assert buf[p] == buf[i..i + |sep|][p - i];
  }

  /** A match inside the slice [lo, hi) is an occurrence in it. */
  lemma MatchInSlice(buf: Bytes, sep: Bytes, i: int, lo: int, hi: int)
    requires MatchesAt(buf, sep, i) && 0 <= lo <= i && i + |sep| <= hi <= |buf|
    ensures Occurs(sep, buf[lo..hi])
  {
    var slice := buf[lo..hi];
    forall k | 0 <= k < |sep|
      ensures slice[i - lo + k] == sep[k]
    {
      assert slice[i - lo + k] == buf[i + k] == buf[i..i + |sep|][k];
    }
    assert MatchesAt(slice, sep, i - lo);
  }

  /** The delimiter cannot straddle the framing of a part, so in an encoded part it occurs only where it was put. */
  lemma PartIsClean(f: Field, sep: Bytes)
    requires sep != [] && CR !in sep && LF !in sep
    requires !Occurs(sep, f.Header()) && !Occurs(sep, f.body)
    ensures Clean(f.Part(), sep)
  {
    var h := f.Header();
    hide Field.Header;
    var buf, hEnd, bEnd := f.Part() + sep, 2 + |h|, 6 + |h| + |f.body|;
    assert buf == CRLF + h + CRLF2 + f.body + CRLF + sep;
    assert buf[0] == CR && buf[1] == LF && buf[hEnd] == CR && buf[hEnd + 1] == LF && buf[hEnd + 2] == CR && buf[hEnd + 3] == LF;
    assert buf[bEnd] == CR && buf[bEnd + 1] == LF;
    assert buf[2..hEnd] == h && buf[hEnd + 4..bEnd] == f.body;
    forall i | 0 <= i < |f.Part()|
      ensures !MatchesAt(buf, sep, i)
    {
      if MatchesAt(buf, sep, i) {
        MatchAvoids(buf, sep, i, 0);
        MatchAvoids(buf, sep, i, 1);
        MatchAvoids(buf, sep, i, hEnd);
        MatchAvoids(buf, sep, i, hEnd + 1);
        MatchAvoids(buf, sep, i, hEnd + 2);
        MatchAvoids(buf, sep, i, hEnd + 3);
        MatchAvoids(buf, sep, i, bEnd);
        MatchAvoids(buf, sep, i, bEnd + 1);
        if i < hEnd {
          MatchInSlice(buf, sep, i, 2, hEnd);
        } else {
          MatchInSlice(buf, sep, i, hEnd + 4, bEnd);
        }
      }
    }
  }

  const CLOSING: Bytes := [45, 45, 13, 10]

  lemma ClosingIsFree(boundary: Bytes)
    requires boundary != [] && CR !in boundary && LF !in boundary
    ensures Free(CLOSING, DASHES + boundary)
  {
    forall i | 0 <= i <= |CLOSING|
      ensures !MatchesAt(CLOSING, DASHES + boundary, i)
    {
      if MatchesAt(CLOSING, DASHES + boundary, i) {
        MatchAvoids(CLOSING, DASHES + boundary, i, 2);
      }
    }
  }

  function PartsOf(fields: seq<Field>): seq<Bytes> {
    seq(|fields|, i requires 0 <= i < |fields| => fields[i].Part())
  }

  lemma {:induction false} EncodeTail(boundary: Bytes, fields: seq<Field>)
    ensures Encode(boundary, fields) == DASHES + boundary + Join(PartsOf(fields) + [CLOSING], DASHES + boundary)
    decreases |fields|
  {
    var sep := DASHES + boundary;
    var tail := PartsOf(fields) + [CLOSING];
    if fields == [] {
      assert tail == [CLOSING];
      assert Join(tail, sep) == CLOSING == DASHES + CRLF;
      assert sep + CLOSING == DASHES + boundary + DASHES + CRLF;
    } else {
      var part, rest := fields[0].Part(), PartsOf(fields[1..]) + [CLOSING];
      EncodeTail(boundary, fields[1..]);
      assert tail == [part] + rest;
      JoinCons(part, rest, sep);
      EncodeStep(sep, part, Join(rest, sep));
      hide Join, Field.Part;
    }
  }

  lemma EncodeStep(sep: Bytes, part: Bytes, joined: Bytes)
    ensures sep + part + (sep + joined) == sep + (part + sep + joined)
  {
  }

  lemma EncodeIsJoin(boundary: Bytes, fields: seq<Field>)
    ensures Encode(boundary, fields) == Join([[]] + PartsOf(fields) + [CLOSING], DASHES + boundary)
  {
    hide Join, Encode, PartsOf;
    var sep, tail := DASHES + boundary, PartsOf(fields) + [CLOSING];
    EncodeTail(boundary, fields);
    assert [[]] + PartsOf(fields) + [CLOSING] == [[]] + tail;
    JoinCons([], tail, sep);
    var joined := Join(tail, sep);
    assert [] + sep + joined == sep + joined;
  }

  lemma SplitOfEncode(boundary: Bytes, fields: seq<Field>)
    requires BoundaryFits(boundary, fields)
    ensures Split(Encode(boundary, fields), DASHES + boundary) == [[]] + PartsOf(fields) + [CLOSING]
  {
    var sep, parts := DASHES + boundary, [[]] + PartsOf(fields) + [CLOSING];
    EncodeIsJoin(boundary, fields);
    ClosingIsFree(boundary);
    forall k | 0 <= k < |parts| - 1
      ensures Clean(parts[k], sep)
    {
      if k > 0 {
        assert parts[k] == fields[k - 1].Part();
        PartIsClean(fields[k - 1], sep);
      }
    }
    SplitOfJoin(parts, sep);
  }

  lemma {:induction false} AbsorbFields(fields: seq<Field>)
    requires forall f | f in fields :: Framed(f)
    ensures AbsorbAll(Form(None, None), [[]] + PartsOf(fields)) == Form(LatestSeen(fields, FILE), LatestSeen(fields, PASSPHRASE))
    decreases |fields|
  {
    if fields == [] {
      AbsorbPreamble();
    } else {
      var n := |fields| - 1;
      var part, before := fields[n].Part(), [[]] + PartsOf(fields[..n]);
      AbsorbFields(fields[..n]);
      FieldIsRead(fields[n]);
      hide *;
      PartsSnoc(fields);
      assert [[]] + PartsOf(fields) == before + [part];
      AbsorbSnoc(before, part);
      AbsorbOne(fields, part);
    }
  }

  lemma AbsorbOne(fields: seq<Field>, part: Bytes)
    requires fields != [] && FieldOf(part) == Some((NameSeen(fields[|fields| - 1]), fields[|fields| - 1].body))
    ensures var init := fields[..|fields| - 1];
            Absorb(Form(LatestSeen(init, FILE), LatestSeen(init, PASSPHRASE)), part) ==
            Form(LatestSeen(fields, FILE), LatestSeen(fields, PASSPHRASE))
  {
    hide FieldOf, NameSeen;
    FileIsNotPassphrase();
  }

  lemma FileIsNotPassphrase()
    ensures FILE != PASSPHRASE
  {
    assert |FILE| != |PASSPHRASE|;
  }

  lemma PartsSnoc(fields: seq<Field>)
    requires fields != []
    ensures PartsOf(fields) == PartsOf(fields[..|fields| - 1]) + [fields[|fields| - 1].Part()]
  {
  }

  lemma AbsorbPreamble()
    ensures AbsorbAll(Form(None, None), [[]] + PartsOf([])) == Form(None, None)
  {
    assert [[]] + PartsOf([]) == [] + [[]];
    AbsorbSnoc([], []);
    assert FieldOf([]) == None;
  }

  lemma AbsorbSnoc(parts: seq<Bytes>, part: Bytes)
    ensures AbsorbAll(Form(None, None), parts + [part]) == Absorb(AbsorbAll(Form(None, None), parts), part)
  {
    assert (parts + [part])[..|parts|] == parts;
  }

  /**
   * Parsing an encoding.  For any boundary without CR or LF whose delimiter occurs in no
   * header block and no body, parsing the encoding of any list of framed fields returns, byte
   * for byte, the bodies of the last field seen as `file` and the last seen as `passphrase`.
   */
  lemma ParseReadsWhatIsSeen(boundary: Bytes, fields: seq<Field>)
    requires BoundaryFits(boundary, fields) && forall f | f in fields :: Framed(f)
    ensures Parse(Encode(boundary, fields), boundary) == Form(LatestSeen(fields, FILE), LatestSeen(fields, PASSPHRASE))
  {
    SplitOfEncode(boundary, fields);
    AbsorbFields(fields);
    AbsorbSnoc([[]] + PartsOf(fields), CLOSING);
    assert FieldOf(CLOSING) == None;
    hide FieldOf, Split, Encode, LatestSeen;
  }

  lemma {:induction false} SeenAsNamed(fields: seq<Field>, name: Bytes)
    requires forall f | f in fields :: NameReads(f)
    ensures LatestSeen(fields, name) == Latest(fields, name)
    decreases |fields|
  {
    if fields != [] {
      assert fields[|fields| - 1] in fields;
      SeenAsNamed(fields[..|fields| - 1], name);
      hide NameFrom;
    }
  }

  /** Parsing undoes the encoding of conforming fields. */
  lemma ParseUndoesEncode(boundary: Bytes, fields: seq<Field>)
    requires BoundaryFits(boundary, fields) && forall f | f in fields :: Conforming(f)
    ensures Parse(Encode(boundary, fields), boundary) == Form(Latest(fields, FILE), Latest(fields, PASSPHRASE))
  {
    ParseReadsWhatIsSeen(boundary, fields);
    SeenAsNamed(fields, FILE);
    SeenAsNamed(fields, PASSPHRASE);
    hide Parse, Encode, Latest, LatestSeen, BoundaryFits;
  }

  /** Each field is taken for the other one, and they hold the same bytes. */
  predicate MistakenAlike(file: Field, passphrase: Field) {
    NameSeen(file) == PASSPHRASE && NameSeen(passphrase) == FILE && file.body == passphrase.body
  }

  /**
   * The import form itself: one file and one passphrase, in either order, come back exactly if
   * and only if both names are read (or each is mistaken for the other, with equal bodies).
   */
  lemma BackupFormRoundTrip(boundary: Bytes, file: Field, passphrase: Field)
    requires file.name == FILE && passphrase.name == PASSPHRASE && Framed(file) && Framed(passphrase)
    requires BoundaryFits(boundary, [file, passphrase])
    ensures Parse(Encode(boundary, [file, passphrase]), boundary) == Form(Some(file.body), Some(passphrase.body))
       <==> (NameReads(file) && NameReads(passphrase)) || MistakenAlike(file, passphrase)
    ensures Parse(Encode(boundary, [passphrase, file]), boundary) == Form(Some(file.body), Some(passphrase.body))
       <==> (NameReads(file) && NameReads(passphrase)) || MistakenAlike(file, passphrase)
  {
    ParseReadsWhatIsSeen(boundary, [file, passphrase]);
    ParseReadsWhatIsSeen(boundary, [passphrase, file]);
    SeenIffReads(file);
    SeenIffReads(passphrase);
    hide Parse, Encode, BoundaryFits, Framed, NameSeen, NameReads, LatestSeen;
    LatestOfTwo(file, passphrase, FILE);
    LatestOfTwo(file, passphrase, PASSPHRASE);
    LatestOfTwo(passphrase, file, FILE);
    LatestOfTwo(passphrase, file, PASSPHRASE);
    FileIsNotPassphrase();
  }

  lemma LatestOfTwo(a: Field, b: Field, name: Bytes)
    ensures LatestSeen([a, b], name) == if NameSeen(b) == name then Some(b.body) else if NameSeen(a) == name then Some(a.body) else None
  {
    hide NameSeen;
    assert [a, b][..1] == [a] && [a][..0] == [];
    assert LatestSeen([a], name) == if NameSeen(a) == name then Some(a.body) else None;
  }

  /** `filename="a"; ` in front of the name. */
  const FILENAME_FIRST: Bytes := [102, 105, 108, 101, 110, 97, 109, 101, 61, 34, 97, 34, 59, 32]

  /** With the file name first the field is read as `a`. */
  lemma FilenameHidesName(f: Field)
    requires f.lead == FILENAME_FIRST
    ensures NameFrom(f.lead + NAME, 0) == Some([97])
  {
    var g := f.lead + NAME;
    assert g[0] == 102 && g[1] == 105 && g[2] == 108 && g[3] == 101;
    assert g[4..10] == NAME && g[10] == 97 && g[11] == QUOTE;
    hide *;
    FirstNameIsA(g);
  }

  lemma FirstNameIsA(g: Bytes)
    requires |g| >= 12 && g[4..10] == NAME && g[10] == 97 && g[11] == QUOTE
    requires g[0] == 102 && g[1] == 105 && g[2] == 108 && g[3] == 101
    ensures NameFrom(g, 0) == Some([97])
  {
    forall k: nat | k < 4
      ensures !NameAt(g, k)
    {
      assert Lower(g[k + 0]) != NAME[0];
    }
    assert NameAt(g, 4) by {
      assert forall k | 0 <= k < 6 :: g[4 + k] == g[4..10][k];
    }
    QuoteIsNext(g, 10, 11);
    assert g[10..11] == [97];
    hide NameAt, QuoteFrom;
    SkipsNoNames(g, 0, 4);
  }

  lemma {:induction false} SkipsNoNames(g: Bytes, i: nat, j: nat)
    requires i <= j <= |g| && forall k: nat | i <= k < j :: !NameAt(g, k)
    ensures NameFrom(g, i) == NameFrom(g, j)
    decreases j - i
  {
    hide NameAt, QuoteFrom;
    if i < j {
      SkipsNoNames(g, i + 1, j);
    }
  }

  /** Then the file is lost: a form with its file part in that order comes back with the passphrase only. */
  lemma FilenameFirstLosesFile(boundary: Bytes, file: Field, passphrase: Field)
    requires file.name == FILE && passphrase.name == PASSPHRASE && Framed(file) && Framed(passphrase) && NameReads(passphrase)
    requires file.lead == FILENAME_FIRST && BoundaryFits(boundary, [file, passphrase])
    ensures Parse(Encode(boundary, [file, passphrase]), boundary) == Form(None, Some(passphrase.body))
  {
    FilenameHidesName(file);
    ParseReadsWhatIsSeen(boundary, [file, passphrase]);
    hide Parse, Encode, BoundaryFits, Framed, NameFrom;
    LatestOfTwo(file, passphrase, FILE);
    LatestOfTwo(file, passphrase, PASSPHRASE);
    FileIsNotPassphrase();
    assert |[97]| != |FILE|;
  }

  lemma MatchStarts(s: Bytes, sep: Bytes, i: int)
    requires MatchesAt(s, sep, i) && sep != []
    ensures s[i] == sep[0]
  {
    assert s[i] == s[i..i + |sep|][0];
  }

  lemma PlainHeaderIsFramed(f: Field)
    requires f.name != [] && QUOTE !in f.name && f.Header() != [] && f.Header()[0] != DASH && CR !in f.Header()
    ensures Framed(f)
  {
    var h := f.Header();
    hide Field.Header;
    forall i | 0 <= i < |h|
      ensures !MatchesAt(h + CRLF2, CRLF2, i)
    {
      assert h[i] in h && (h + CRLF2)[i] == h[i];
      if MatchesAt(h + CRLF2, CRLF2, i) {
        MatchStarts(h + CRLF2, CRLF2, i);
      }
    }
    assert (h + CRLF2)[|h|..|h| + 4] == CRLF2;
  }

  lemma NoDashNoDelimiter(boundary: Bytes, s: Bytes)
    requires DASH !in s
    ensures !Occurs(DASHES + boundary, s)
  {
    var sep := DASHES + boundary;
    assert sep[0] == DASH;
    forall i
      ensures !MatchesAt(s, sep, i)
    {
      if MatchesAt(s, sep, i) {
        MatchStarts(s, sep, i);
      }
    }
  }

  /** A field whose bytes are neither CR nor a dash. */
  lemma PlainField(f: Field)
    requires forall c | c in f.lead || c in f.name || c in f.trail || c in f.body :: c != CR && c != DASH
    requires f.name != [] && QUOTE !in f.name
    ensures Framed(f) && !Occurs(DASHES + [98], f.Header()) && !Occurs(DASHES + [98], f.body)
  {
    var h := f.Header();
    assert h == f.lead + (NAME + (f.name + ([QUOTE] + f.trail)));
    hide Field.Header;
    assert forall c | c in NAME :: c != CR && c != DASH;
    assert forall c | c in h :: c in f.lead || c in NAME || c in f.name || c == QUOTE || c in f.trail;
    assert |h| > 0 && h[0] in h;
    NoDashNoDelimiter([98], h);
    NoDashNoDelimiter([98], f.body);
    PlainHeaderIsFramed(f);
  }

  function ExampleFile(): Field { Field(FILENAME_FIRST, FILE, [], []) }

  function ExamplePassphrase(): Field { Field([], PASSPHRASE, [], [120]) }

  lemma ExampleFileIsPlain()
    ensures var f := ExampleFile(); f.name == FILE && f.lead == FILENAME_FIRST
    ensures var f := ExampleFile(); Framed(f) && !Occurs(DASHES + [98], f.Header()) && !Occurs(DASHES + [98], f.body)
  {
    PlainField(ExampleFile());
    hide Framed, Occurs, Field.Header;
  }

  lemma ExamplePassphraseIsPlain()
    ensures var f := ExamplePassphrase(); f.name == PASSPHRASE && f.body == [120] && NameReads(f)
    ensures var f := ExamplePassphrase(); Framed(f) && !Occurs(DASHES + [98], f.Header()) && !Occurs(DASHES + [98], f.body)
  {
    PlainField(ExamplePassphrase());
    LeadWithoutQuote(ExamplePassphrase());
    hide Framed, Occurs, Field.Header, NameReads;
  }

  /** Such a form: boundary `b`, an empty file under the file name `a`, the passphrase `x`. */
  lemma FilenameFirstExample()
    ensures Parse(Encode([98], [ExampleFile(), ExamplePassphrase()]), [98]) == Form(None, Some([120]))
  {
    hide *;
    ExampleFileIsPlain();
    ExamplePassphraseIsPlain();
    ExampleFits(ExampleFile(), ExamplePassphrase());
    FilenameFirstLosesFile([98], ExampleFile(), ExamplePassphrase());
  }

  lemma ExampleFits(a: Field, b: Field)
    requires !Occurs(DASHES + [98], a.Header()) && !Occurs(DASHES + [98], a.body)
    requires !Occurs(DASHES + [98], b.Header()) && !Occurs(DASHES + [98], b.body)
    ensures BoundaryFits([98], [a, b])
  {
    hide Occurs, Field.Header;
  }

  // ---------------------------------------------------------------- what is no field

  /** The six bytes `name="`, each letter in either case. */
  lemma NameIgnoresCase(h: Bytes, i: nat)
    ensures NameAt(h, i) <==>
      && i + 6 <= |h|
      && h[i] in {110, 78} && h[i + 1] in {97, 65} && h[i + 2] in {109, 77} && h[i + 3] in {101, 69}
      && h[i + 4] == 61 && h[i + 5] == 34
  {
    if i + 6 <= |h| {
      assert NameAt(h, i) <==> forall k | 0 <= k < 6 :: Lower(h[i + k]) == NAME[k];
      forall k | 0 <= k < 6
        ensures Lower(h[i + k]) == NAME[k] <==> h[i + k] == NAME[k] || (k < 4 && h[i + k] == NAME[k] - 32)
      {
      }
      hide Lower;
      assert (forall k | 0 <= k < 6 :: Lower(h[i + k]) == NAME[k])
        <==> Lower(h[i + 0]) == NAME[0] && Lower(h[i + 1]) == NAME[1] && Lower(h[i + 2]) == NAME[2] && Lower(h[i + 3]) == NAME[3]
             && Lower(h[i + 4]) == NAME[4] && Lower(h[i + 5]) == NAME[5];
    }
  }

  /** An empty name is passed over. */
  lemma EmptyNameIsPassed(h: Bytes, i: nat)
    requires NameAt(h, i) && i + 6 < |h| && h[i + 6] == QUOTE
    ensures NameFrom(h, i) == NameFrom(h, i + 1)
  {
    assert QuoteFrom(h, i + 6) == i + 6;
    hide NameAt;
  }

  /** A part that starts with `--` is no field. */
  lemma ClosingIsNoField(rest: Bytes)
    ensures FieldOf(DASHES + rest) == None && FieldOf(CRLF + (DASHES + rest)) == None
  {
    var part := DASHES + rest;
    assert part[..2] == DASHES && part[0] == DASHES[0];
    assert (CRLF + part)[..2] == CRLF && (CRLF + part)[2..] == part;
    assert StripLeading(part) == part && StripLeading(CRLF + part) == part;
    hide NameFrom, IndexFrom;
  }

  /** Neither is a part without a blank line. */
  lemma HeaderlessIsNoField(part: Bytes)
    requires !Occurs(CRLF2, part)
    ensures FieldOf(part) == None
  {
    var content := StripLeading(part);
    IndexFromIsFirst(content, CRLF2, 0);
    var at := IndexFrom(content, CRLF2, 0);
    hide NameFrom, IndexFrom;
    var cut := |part| - |content|;
    assert content == part[cut..];
    assert at >= 0 ==> MatchesAt(part, CRLF2, cut + at);
  }
}
