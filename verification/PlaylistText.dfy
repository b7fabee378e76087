/**
 The playlist as text, read by the general rules of RFC 8216: lines end in a newline (section 4.1), tags
 start with `#` and carry a value after a colon, attribute lists are `NAME=value` pairs separated by
 commas, values perhaps in quotes (section 4.2), and any other line is a URI.
 */
module PlaylistText {
  import opened Wrappers
  import opened Decimal
  import opened Segmenter
  import opened LiveStream
  import opened LiveSystem
  import opened Playlist

  datatype Parsed = Tag(name: string, value: string) | Uri(uri: string)

  datatype Attribute = Attribute(name: string, value: string)

  function SplitOnce(s: string, c: char): (r: (string, Option<string>))
    ensures r.1.Some? ==> |r.0| + 1 + |r.1.value| == |s|
  {
    match Find(s, [c])
    case None => (s, None)
    case Some(k) => (s[..k], Some(s[k + 1..]))
  }

  lemma {:induction false} SplitsAt(a: string, c: char, b: string)
    requires c !in a
    ensures SplitOnce(a + [c] + b, c) == (a, Some(b)) && SplitOnce(a, c) == (a, None)
  {
    hide Find;
    var s := a + [c] + b;
    assert s[|a|] == c && s[..|a|] == a && s[|a| + 1..] == b;
    assert s[|a|..|a| + 1] == [c];
    assert OccursAt(s, [c], |a|);
    forall k: nat | k < |a| ensures !OccursAt(s, [c], k) { assert s[k..k + 1][0] == a[k]; }
    forall k: nat ensures !OccursAt(a, [c], k) {
      if k + 1 <= |a| { assert a[k..k + 1][0] == a[k]; }
    }
  }

  function ParseLine(line: string): Parsed {
    if line != [] && line[0] == '#' then
      var (name, value) := SplitOnce(line[1..], ':');
      Tag(name, if value.Some? then value.value else "")
    else Uri(line)
  }

  function ReadText(text: string): seq<Parsed>
    decreases |text|
  {
    if text == [] then []
    else
      var (line, rest) := SplitOnce(text, '\n');
      [ParseLine(line)] + if rest.Some? then ReadText(rest.value) else []
  }

  function Attributes(s: string): seq<Attribute>
    decreases |s|
  {
    if s == [] then []
    else
      var (name, after) := SplitOnce(s, '=');
      if after.None? then []
      else if after.value != [] && after.value[0] == '"' then
        var (value, rest) := SplitOnce(after.value[1..], '"');
        [Attribute(name, value)]
        + if rest.Some? && rest.value != [] && rest.value[0] == ','
          then Attributes(rest.value[1..]) else []
      else
        var (value, rest) := SplitOnce(after.value, ',');
        [Attribute(name, value)] + if rest.Some? then Attributes(rest.value) else []
  }

  /** What the standard, and its low-latency extension, make of a line. */
  ghost predicate Means(p: Parsed, l: Line, fmt: real -> string) {
    match l
    case Header => p == Tag("EXTM3U", "")
    case Version(n) => p == Tag("EXT-X-VERSION", Digits(n))
    case TargetDuration(n) => p == Tag("EXT-X-TARGETDURATION", Digits(n))
    case MediaSequence(n) => p == Tag("EXT-X-MEDIA-SEQUENCE", Digits(n))
    case ServerControl(h) =>
      p.Tag? && p.name == "EXT-X-SERVER-CONTROL"
      && Attributes(p.value) == [Attribute("CAN-BLOCK-RELOAD", "YES"), Attribute("PART-HOLD-BACK", fmt(h))]
    case PartInf(d) =>
      p.Tag? && p.name == "EXT-X-PART-INF" && Attributes(p.value) == [Attribute("PART-TARGET", fmt(d))]
    case MapTag(uri) => p.Tag? && p.name == "EXT-X-MAP" && Attributes(p.value) == [Attribute("URI", uri)]
    case PartTag(d, uri, independent) =>
      p.Tag? && p.name == "EXT-X-PART"
      && Attributes(p.value) == [Attribute("DURATION", fmt(d)), Attribute("URI", uri)]
                                + if independent then [Attribute("INDEPENDENT", "YES")] else []
    case ExtInf(d) => p.Tag? && p.name == "EXTINF" && SplitOnce(p.value, ',') == (fmt(d), Some(""))
    case SegmentUri(uri) => p == Uri(uri)
    case PreloadHint(uri) =>
      p.Tag? && p.name == "EXT-X-PRELOAD-HINT"
      && Attributes(p.value) == [Attribute("TYPE", "PART"), Attribute("URI", uri)]
    case EndList => p == Tag("EXT-X-ENDLIST", "")
  }

  /** A decimal fraction as printed: no newline, comma, quote. */
  ghost predicate Unpunctuated(s: string) {
    '\n' !in s && ',' !in s && '"' !in s
  }

  ghost predicate PrintsPlainly(fmt: real -> string) { forall x :: Unpunctuated(fmt(x)) }

  ghost predicate Quotable(uri: string) { '\n' !in uri && '"' !in uri }

  ghost predicate Printable(l: Line) {
    match l
    case MapTag(uri) => Quotable(uri)
    case PartTag(_, uri, _) => Quotable(uri)
    case SegmentUri(uri) => Quotable(uri) && uri != "" && uri[0] != '#'
    case PreloadHint(uri) => Quotable(uri)
    case _ => true
  }

  // ------------------------------------------------------------------------------------------
  // One line.

  /** A line that ends with the text, and what it is read as. */
  ghost predicate ReadsAs(text: string, p: Parsed) {
    exists body :: text == body + "\n" && '\n' !in body && ParseLine(body) == p
  }

  lemma {:induction false} TagReads(name: string, value: string)
    requires ':' !in name && '\n' !in name && '\n' !in value
    ensures ReadsAs(TagText(name, value), Tag(name, value))
  {
    hide SplitOnce;
    var body := "#" + name + ":" + value;
    SplitsAt(name, ':', value);
    assert body[1..] == name + [':'] + value;
    assert TagText(name, value) == body + "\n" && '\n' !in body && ParseLine(body) == Tag(name, value);
  }

  lemma {:induction false} BareTagReads(name: string)
    requires ':' !in name && '\n' !in name
    ensures ReadsAs(BareTag(name), Tag(name, ""))
  {
    hide SplitOnce;
    var body := "#" + name;
    SplitsAt(name, ':', "");
    assert body[1..] == name;
    assert '\n' !in body && ParseLine(body) == Tag(name, "");
  }

  lemma {:induction false} UriReads(uri: string)
    requires '\n' !in uri && uri != "" && uri[0] != '#'
    ensures ReadsAs(uri + "\n", Uri(uri))
  {
    assert ParseLine(uri) == Uri(uri);
  }

  lemma {:induction false} QuotedReads(name: string, value: string, rest: string)
    requires '=' !in name && '"' !in value
    ensures Attributes(Quoted(name, value)) == [Attribute(name, value)]
    ensures Attributes(Quoted(name, value) + ("," + rest)) == [Attribute(name, value)] + Attributes(rest)
  {
    hide SplitOnce;
    var tail, quoted := "," + rest, "\"" + value + "\"";
    SplitsAt(name, '=', quoted);
    SplitsAt(name, '=', quoted + tail);
    assert Quoted(name, value) == name + ['='] + quoted;
    assert Quoted(name, value) + tail == name + ['='] + (quoted + tail);
    SplitsAt(value, '"', "");
    SplitsAt(value, '"', tail);
    assert quoted[1..] == value + ['"'] + "";
    assert (quoted + tail)[1..] == value + ['"'] + tail;
    assert tail[1..] == rest;
  }

  lemma {:induction false} PlainReads(name: string, value: string, rest: string)
    requires '=' !in name && ',' !in value && '"' !in value
    ensures Attributes(Plain(name, value)) == [Attribute(name, value)]
    ensures Attributes(Plain(name, value) + "," + rest) == [Attribute(name, value)] + Attributes(rest)
  {
    hide SplitOnce;
    SplitsAt(name, '=', value);
    SplitsAt(name, '=', value + "," + rest);
    assert Plain(name, value) + "," + rest == name + ['='] + (value + "," + rest);
    SplitsAt(value, ',', rest);
    var all := value + [','] + rest;
    assert value != [] ==> all[0] == value[0] && value[0] in value;
    assert value == [] ==> all[0] == ',';
  }

  /** The text of a line is one line, and means what it should. */
  ghost predicate Sound(l: Line, fmt: real -> string) {
    exists p :: ReadsAs(Text(l, fmt), p) && Means(p, l, fmt)
  }

  lemma {:induction false} Said(l: Line, fmt: real -> string, p: Parsed)
    requires ReadsAs(Text(l, fmt), p) && Means(p, l, fmt)
    ensures Sound(l, fmt)
  {
  }

  lemma {:induction false} TagSays(l: Line, fmt: real -> string, name: string, value: string)
    requires ':' !in name && '\n' !in name && '\n' !in value
    requires Text(l, fmt) == TagText(name, value) && Means(Tag(name, value), l, fmt)
    ensures Sound(l, fmt)
  {
    hide ReadsAs, Means, Text, TagText;
    TagReads(name, value);
    Said(l, fmt, Tag(name, value));
  }

  lemma {:induction false} HeaderText(l: Line, fmt: real -> string)
    requires l.Header? || l.Version? || l.TargetDuration? || l.MediaSequence? || l.EndList?
    ensures Sound(l, fmt)
  {
    hide ReadsAs, Digits, TagText, BareTag, Sound;
    match l
    case Header => BareTagReads("EXTM3U"); Said(l, fmt, Tag("EXTM3U", ""));
    case Version(n) => TagSays(l, fmt, "EXT-X-VERSION", Digits(n));
    case TargetDuration(n) => TagSays(l, fmt, "EXT-X-TARGETDURATION", Digits(n));
    case MediaSequence(n) => TagSays(l, fmt, "EXT-X-MEDIA-SEQUENCE", Digits(n));
    case EndList => BareTagReads("EXT-X-ENDLIST"); Said(l, fmt, Tag("EXT-X-ENDLIST", ""));
  }

  ghost predicate IsName(name: string) { '=' !in name && '\n' !in name }

  lemma {:induction false} PlainPair(a: string, x: string, b: string, y: string)
    requires IsName(a) && IsName(b) && Unpunctuated(x) && Unpunctuated(y)
    ensures var v := Plain(a, x) + "," + Plain(b, y);
      '\n' !in v && Attributes(v) == [Attribute(a, x), Attribute(b, y)]
  {
    hide Attributes;
    PlainReads(a, x, Plain(b, y));
    PlainReads(b, y, "");
  }

  lemma {:induction false} QuotedPair(a: string, x: string, b: string, y: string)
    requires IsName(a) && IsName(b) && Unpunctuated(x) && Quotable(y)
    ensures var v := Plain(a, x) + "," + Quoted(b, y);
      '\n' !in v && Attributes(v) == [Attribute(a, x), Attribute(b, y)]
  {
    hide Attributes;
    PlainReads(a, x, Quoted(b, y));
    QuotedReads(b, y, "");
  }

  lemma {:induction false} QuotedTriple(a: string, x: string, b: string, y: string, c: string, z: string)
    requires IsName(a) && IsName(b) && IsName(c) && Unpunctuated(x) && Quotable(y) && Unpunctuated(z)
    ensures var v := Plain(a, x) + "," + Quoted(b, y) + ("," + Plain(c, z));
      '\n' !in v && Attributes(v) == [Attribute(a, x), Attribute(b, y), Attribute(c, z)]
  {
    hide Attributes;
    PlainReads(a, x, Quoted(b, y) + ("," + Plain(c, z)));
    QuotedReads(b, y, Plain(c, z));
    PlainReads(c, z, "");
    Associative(Plain(a, x) + ",", Quoted(b, y), "," + Plain(c, z));
  }

  lemma {:induction false} ControlText(h: real, fmt: real -> string)
    requires PrintsPlainly(fmt)
    ensures Sound(ServerControl(h), fmt)
  {
    hide Attributes, TagText, Plain, Sound;
    assert Unpunctuated(fmt(h));
    PlainPair("CAN-BLOCK-RELOAD", "YES", "PART-HOLD-BACK", fmt(h));
    TagSays(ServerControl(h), fmt, "EXT-X-SERVER-CONTROL",
            Plain("CAN-BLOCK-RELOAD", "YES") + "," + Plain("PART-HOLD-BACK", fmt(h)));
  }

  lemma {:induction false} DurationText(d: real, fmt: real -> string)
    requires PrintsPlainly(fmt)
    ensures Sound(PartInf(d), fmt) && Sound(ExtInf(d), fmt)
  {
    hide Attributes, SplitOnce, TagText, Sound;
    assert Unpunctuated(fmt(d));
    PlainReads("PART-TARGET", fmt(d), "");
    TagSays(PartInf(d), fmt, "EXT-X-PART-INF", Plain("PART-TARGET", fmt(d)));
    SplitsAt(fmt(d), ',', "");
    assert fmt(d) + [','] + "" == fmt(d) + ",";
    TagSays(ExtInf(d), fmt, "EXTINF", fmt(d) + ",");
  }

  lemma {:induction false} MapText(uri: string, fmt: real -> string)
    requires Quotable(uri)
    ensures Sound(MapTag(uri), fmt)
  {
    hide Attributes, TagText, Sound;
    QuotedReads("URI", uri, "");
    TagSays(MapTag(uri), fmt, "EXT-X-MAP", Quoted("URI", uri));
  }

  lemma {:induction false} HintText(uri: string, fmt: real -> string)
    requires Quotable(uri)
    ensures Sound(PreloadHint(uri), fmt)
  {
    hide Attributes, TagText, Plain, Quoted, Sound;
    QuotedPair("TYPE", "PART", "URI", uri);
    TagSays(PreloadHint(uri), fmt, "EXT-X-PRELOAD-HINT", Plain("TYPE", "PART") + "," + Quoted("URI", uri));
  }

  lemma {:induction false} SegmentText(uri: string, fmt: real -> string)
    requires Quotable(uri) && uri != "" && uri[0] != '#'
    ensures Sound(SegmentUri(uri), fmt)
  {
    hide ReadsAs, Sound;
    UriReads(uri);
    Said(SegmentUri(uri), fmt, Uri(uri));
  }

  lemma {:induction false} PartText(d: real, uri: string, independent: bool, fmt: real -> string)
    requires Quotable(uri) && PrintsPlainly(fmt)
    ensures Sound(PartTag(d, uri, independent), fmt)
  {
    hide Attributes, TagText, Plain, Quoted, Sound;
    assert Unpunctuated(fmt(d));
    var short := Plain("DURATION", fmt(d)) + "," + Quoted("URI", uri);
    if independent {
      QuotedTriple("DURATION", fmt(d), "URI", uri, "INDEPENDENT", "YES");
      TagSays(PartTag(d, uri, true), fmt, "EXT-X-PART", short + ("," + Plain("INDEPENDENT", "YES")));
    } else {
      QuotedPair("DURATION", fmt(d), "URI", uri);
      assert short + "" == short;
      TagSays(PartTag(d, uri, false), fmt, "EXT-X-PART", short);
    }
  }

  lemma {:induction false} EachLineIsSound(l: Line, fmt: real -> string)
    requires Printable(l) && PrintsPlainly(fmt)
    ensures Sound(l, fmt)
  {
    hide Sound, Text, Means;
    match l
    case ServerControl(h) => ControlText(h, fmt);
    case PartInf(d) => DurationText(d, fmt);
    case ExtInf(d) => DurationText(d, fmt);
    case MapTag(uri) => MapText(uri, fmt);
    case PartTag(d, uri, independent) => PartText(d, uri, independent, fmt);
    case SegmentUri(uri) => SegmentText(uri, fmt);
    case PreloadHint(uri) => HintText(uri, fmt);
    case _ => HeaderText(l, fmt);
  }

  // ------------------------------------------------------------------------------------------
  // The whole text.

  lemma {:induction false} ReadOneLine(text: string, p: Parsed, rest: string)
    requires ReadsAs(text, p)
    ensures ReadText(text + rest) == [p] + ReadText(rest)
  {
    hide SplitOnce, ParseLine;
    var body :| text == body + "\n" && '\n' !in body && ParseLine(body) == p;
    SplitsAt(body, '\n', rest);
    assert text + rest == body + ['\n'] + rest;
  }

  ghost predicate AllMean(ps: seq<Parsed>, lines: seq<Line>, fmt: real -> string) {
    |ps| == |lines| && forall i | 0 <= i < |lines| :: Means(ps[i], lines[i], fmt)
  }

  /** Read line by line, the text means the lines it was rendered from. */
  lemma {:induction false} TextReadsBack(lines: seq<Line>, fmt: real -> string)
    requires PrintsPlainly(fmt) && forall l | l in lines :: Printable(l)
    ensures AllMean(ReadText(Render(lines, fmt)), lines, fmt)
  {
    hide Text, Means, ReadsAs, Printable, ReadText;
    if lines == [] {
      assert ReadText("") == [] by { NothingToRead(); }
    } else {
      var l, rest := lines[0], lines[1..];
      assert lines == [l] + rest;
      TextReadsBack(rest, fmt);
      EachLineIsSound(l, fmt);
      var p :| ReadsAs(Text(l, fmt), p) && Means(p, l, fmt);
      RenderConcat([l], rest, fmt);
      assert Render([l], fmt) == Text(l, fmt) by { RenderOne(l, fmt); }
      ReadOneLine(Text(l, fmt), p, Render(rest, fmt));
      forall i | 0 <= i < |lines| ensures Means(([p] + ReadText(Render(rest, fmt)))[i], lines[i], fmt) {
        if i > 0 { assert lines[i] == rest[i - 1]; }
      }
    }
  }

  lemma {:induction false} NothingToRead()
    ensures ReadText("") == []
  {
  }

  lemma {:induction false} RenderOne(l: Line, fmt: real -> string)
    ensures Render([l], fmt) == Text(l, fmt)
  {
    assert [l][..0] == [] && "" + Text(l, fmt) == Text(l, fmt);
  }

  lemma {:induction false} UnderBase(base: string, file: string)
    requires Quotable(base) && base != "" && base[0] != '#' && Quotable(file)
    ensures var uri := base + "/" + file; Quotable(uri) && uri != "" && uri[0] != '#'
  {
  }

  lemma {:induction false} NamesAreQuotable(n: nat, i: nat)
    ensures Quotable(SegmentName(n)) && Quotable(PartName(n, i))
  {
    hide Digits;
    DigitsAreQuotable(Digits(n));
    DigitsAreQuotable(Digits(i));
  }

  lemma {:induction false} DigitsAreQuotable(s: string)
    requires AllDigits(s)
    ensures Quotable(s)
  {
  }

  lemma {:induction false} PartLinesPrintable(base: string, n: nat, ps: seq<Part>)
    requires Quotable(base) && base != "" && base[0] != '#'
    ensures forall l | l in PartLines(base, n, ps) :: Printable(l)
  {
    hide PartName, Quotable;
    if ps != [] {
      var p := ps[|ps| - 1];
      PartLinesPrintable(base, n, ps[..|ps| - 1]);
      NamesAreQuotable(n, p.index);
      UnderBase(base, PartName(n, p.index));
    }
  }

  lemma {:induction false} SegmentLinesPrintable(base: string, ll: bool, gs: seq<Segment>)
    requires Quotable(base) && base != "" && base[0] != '#'
    ensures forall l | l in AllSegmentLines(base, ll, gs) :: Printable(l)
  {
    hide PartName, SegmentName, Quotable, PartLines;
    if gs != [] {
      var g := gs[|gs| - 1];
      SegmentLinesPrintable(base, ll, gs[..|gs| - 1]);
      PartLinesPrintable(base, g.sequence, g.parts);
      NamesAreQuotable(g.sequence, 0);
      UnderBase(base, SegmentName(g.sequence));
    }
  }

  lemma {:induction false} TailPrintable(s: Stream, base: string)
    requires Quotable(base) && base != "" && base[0] != '#'
    ensures forall l | l in TailLines(s, base) :: Printable(l)
  {
    hide PartName, Quotable, PartLines;
    PartLinesPrintable(base, s.currentPartSequence, s.currentParts);
    NamesAreQuotable(s.currentPartSequence, |s.currentParts|);
    UnderBase(base, PartName(s.currentPartSequence, |s.currentParts|));
  }

  /**
   The text of a live playlist under a base path without quotes and newlines, read by the general rules
   line by line, means the playlist's lines, every tag and attribute of them.
   */
  lemma {:induction false} ManifestReadsBack(s: Stream, base: string, fmt: real -> string)
    requires PrintsPlainly(fmt) && Quotable(base) && base != "" && base[0] != '#'
    ensures AllMean(ReadText(Render(Lines(s, base), fmt)), Lines(s, base), fmt)
  {
    hide Quotable, AllSegmentLines, TailLines, ReadText, Render, AllMean, PrintsPlainly, MaxDuration, CeilToUnsigned;
    SegmentLinesPrintable(base, s.settings.llHls, s.segments);
    TailPrintable(s, base);
    assert Quotable("init.mp4") by { InitIsQuotable(); }
    UnderBase(base, "init.mp4");
    assert base + "/init.mp4" == base + "/" + "init.mp4";
    TextReadsBack(Lines(s, base), fmt);
  }

  lemma {:induction false} InitIsQuotable()
    ensures Quotable("init.mp4")
  {
  }

  lemma {:induction false} SplitsBefore(s: string, c: char, rest: string)
    requires c in s
    ensures |SplitOnce(s + rest, c).0| < |s|
  {
    hide Find;
    var k :| 0 <= k < |s| && s[k] == c;
    assert (s + rest)[k..k + 1] == [c];
    assert OccursAt(s + rest, [c], k);
  }

  /** The condition is exact: a URI is read back from its attribute if and only if it has neither. */
  lemma {:induction false} MapReadsBackIff(uri: string, fmt: real -> string)
    ensures Sound(MapTag(uri), fmt) <==> Quotable(uri)
  {
    hide ReadsAs, Text, Means, Quotable;
    if Quotable(uri) {
      MapText(uri, fmt);
    } else if p :| ReadsAs(Text(MapTag(uri), fmt), p) && Means(p, MapTag(uri), fmt) {
      NotReadBack(uri, fmt, p);
    }
  }

  lemma {:induction false} NotReadBack(uri: string, fmt: real -> string, p: Parsed)
    requires !Quotable(uri) && ReadsAs(Text(MapTag(uri), fmt), p)
    ensures !Means(p, MapTag(uri), fmt)
  {
    hide ReadsAs, Attributes, TagText;
    OneBody(Text(MapTag(uri), fmt), p, "EXT-X-MAP", Quoted("URI", uri));
    assert forall c | c in uri :: c in Quoted("URI", uri);
    CutAtQuote(uri);
  }

  lemma {:induction false} OneBody(text: string, p: Parsed, name: string, value: string)
    requires ReadsAs(text, p) && text == TagText(name, value) && ':' !in name && '\n' !in name
    ensures '\n' !in value && p == Tag(name, value)
  {
    hide SplitOnce;
    var body :| text == body + "\n" && '\n' !in body && ParseLine(body) == p;
    var line := "#" + name + ":" + value;
    assert body == text[..|text| - 1] == line;
    assert value == line[|name| + 2..];
    SplitsAt(name, ':', value);
    assert line[1..] == name + [':'] + value;
  }

  lemma {:induction false} CutAtQuote(uri: string)
    requires '"' in uri
    ensures Attributes(Quoted("URI", uri)) != [Attribute("URI", uri)]
  {
    hide SplitOnce;
    var quoted := "\"" + uri + "\"";
    SplitsAt("URI", '=', quoted);
    assert Quoted("URI", uri) == "URI" + ['='] + quoted;
    assert quoted[0] == '"' && quoted[1..] == uri + "\"";
    SplitsBefore(uri, '"', "\"");
    assert Attributes(Quoted("URI", uri))[0].value == SplitOnce(uri + "\"", '"').0;
  }
}
