/**
 * The line-oriented ALN parser
 * (crates/morpheus-googolswarm/morpheus-spec-aln/src/parser.rs, `parse_aln`):
 * every non-blank, non-comment line holding an '=' becomes one property, its
 * key the trimmed text before the first '=', its value the trimmed text after
 * it with surrounding double quotes removed.
 */
module AlnParser {
  import opened Results
  import opened Aln
  import Text
  import Seqs

  /** `ParsedError` is declared in a file that is not part of this model; `parse_aln` never builds one. */
  datatype ParsedError = ParsedError

  /** The key texts with a variant of their own, matched exactly and case-sensitively. */
  const ReservedNames: set<string> := {"SECTION", "ROLE", "RIGHTS", "CAPABILITIES", "SPECIES", "REVERSAL_POLICY"}

  /** The text a key is written with. */
  function KeyName(key: AlnKey): string {
    match key
    case Section => "SECTION"
    case Role => "ROLE"
    case Rights => "RIGHTS"
    case Capabilities => "CAPABILITIES"
    case Species => "SPECIES"
    case ReversalPolicy => "REVERSAL_POLICY"
    case Custom(name) => name
  }

  /** The key a trimmed key text denotes. */
  function KeyOf(text: string): (key: AlnKey)
    ensures KeyName(key) == text
    ensures key.Custom? <==> text !in ReservedNames
  {
    match text
    case "SECTION" => Section
    case "ROLE" => Role
    case "RIGHTS" => Rights
    case "CAPABILITIES" => Capabilities
    case "SPECIES" => Species
    case "REVERSAL_POLICY" => ReversalPolicy
    case _ => Custom(text)
  }

  /** Every key but a custom one spelled like a reserved name is read back as itself. */
  lemma KeyOfKeyName(key: AlnKey)
    requires key.Custom? ==> key.name !in ReservedNames
    ensures KeyOf(KeyName(key)) == key
  {
  }

  /** A value neither starts nor ends with a double quote. */
  predicate Unquoted(v: string) {
    |v| > 0 ==> v[0] != '"' && v[|v| - 1] != '"'
  }

  /** Lines that carry no property. */
  predicate Skipped(trimmed: string) {
    |trimmed| == 0 || trimmed[0] == '#'
  }

  /**
   * `q` is what the trimmed line `t` says when split at its `i`-th character,
   * the first '=': the trimmed text before it names the key, and the text
   * after it, trimmed and stripped of double quotes, is the value.
   */
  ghost predicate SplitAt(t: string, i: int, q: AlnProperty) {
    && 0 <= i < |t|
    && t[i] == '='
    && '=' !in t[..i]
    && KeyName(q.key) == Text.Trim(t[..i])
    && q.value == Text.TrimBy(Text.Trim(t[i + 1..]), Text.IsQuote)
  }

  /** The property one line of input yields, if any. */
  function ParseLine(line: string): (r: Option<AlnProperty>)
    ensures var t := Text.Trim(line);
      r.Some? <==> (!Skipped(t) && '=' in t)
    ensures r.Some? ==> Unquoted(r.value.value)
  {
    var t := Text.Trim(line);
    if Skipped(t) then None
    else match Text.SplitOnce(t, '=')
      case None => None
      case Some((k, v)) =>
        Some(AlnProperty(KeyOf(Text.Trim(k)), Text.TrimBy(Text.Trim(v), Text.IsQuote)))
  }

  /**
   * What a line says: the key is the trimmed text before the first '=', the
   * value the text after it, trimmed and stripped of double quotes; so values
   * may hold further '=' characters and keys never do.
   */
  lemma ParseLineSplitsAtFirstEquals(line: string)
    ensures ParseLine(line).Some? ==> exists i :: SplitAt(Text.Trim(line), i, ParseLine(line).value)
    ensures ParseLine(line).Some? ==> '=' !in KeyName(ParseLine(line).value.key)
  {
    var t := Text.Trim(line);
    var r := ParseLine(line);
    if r.Some? {
      var parts := Text.SplitOnce(t, '=');
      assert parts.Some?;
      var (k, v) := parts.value;
      assert r.value == AlnProperty(KeyOf(Text.Trim(k)), Text.TrimBy(Text.Trim(v), Text.IsQuote));
      assert t == k + ['='] + v;
      assert t[..|k|] == k && t[|k|] == '=' && t[|k| + 1..] == v;
      assert SplitAt(t, |k|, r.value);
      TrimKeepsAbsence(k, '=');
    }
  }

  /** Trimming never brings in a character that was not there. */
  lemma TrimKeepsAbsence(s: string, c: char)
    requires c !in s
    ensures c !in Text.Trim(s)
  {
    var r := Text.Trim(s);
    var i, j :| Text.StrippedBy(s, Text.IsWhitespace, i, j) && r == s[i..j];
  }

  /** The properties of a sequence of lines, in line order; at most one per line. */
  function ParseLines(lines: seq<string>): (r: seq<AlnProperty>)
    ensures |r| <= |lines|
    ensures forall q :: q in r ==> Unquoted(q.value)
  {
    Seqs.FilterMap(lines, ParseLine)
  }

  /** `parse_aln`: it never fails, and no value it yields starts or ends with a double quote. */
  function ParseAln(input: string): (r: Result<AlnDocument, ParsedError>)
    ensures r.Ok?
    ensures |r.value.properties| <= |Text.Lines(input)|
    ensures forall q :: q in r.value.properties ==> Unquoted(q.value)
  {
    Ok(AlnDocument(ParseLines(Text.Lines(input))))
  }

  /** One line yields its property, or nothing. */
  lemma ParseLinesSingle(line: string)
    ensures ParseLines([line]) == match ParseLine(line) case Some(q) => [q] case None => []
  {
    Seqs.FilterMapSingle(line, ParseLine);
  }

  /** Properties come out in line order: parsing distributes over concatenation of lines. */
  lemma ParseLinesAppend(a: seq<string>, b: seq<string>)
    ensures ParseLines(a + b) == ParseLines(a) + ParseLines(b)
  {
    Seqs.FilterMapAppend(a, b, ParseLine);
  }

  /** A blank line, a comment line or a line without '=' can be removed without changing the result. */
  lemma IgnoredLineContributesNothing(a: seq<string>, line: string, b: seq<string>)
    requires Skipped(Text.Trim(line)) || '=' !in Text.Trim(line)
    ensures ParseLines(a + [line] + b) == ParseLines(a + b)
  {
    assert ParseLine(line).None?;
    ParseLinesSingle(line);
    ParseLinesAppend(a + [line], b);
    ParseLinesAppend(a, [line]);
    ParseLinesAppend(a, b);
    assert ParseLines([line]) == [];
    assert ParseLines(a + [line]) == ParseLines(a);
  }

  /** Trimming a text whose ends do not match leaves it as it is. */
  lemma TrimByKeeps(s: string, p: char -> bool)
    requires |s| == 0 || (!p(s[0]) && !p(s[|s| - 1]))
    ensures Text.TrimBy(s, p) == s
  {
    var r := Text.TrimBy(s, p);
    var i, j :| Text.StrippedBy(s, p, i, j) && r == s[i..j];
    assert i == 0 && j == |s|;
  }

  /** A key text or value that the parser reproduces unchanged. */
  predicate Clean(s: string) {
    && '\n' !in s
    && '=' !in s
    && (|s| > 0 ==> !Text.IsWhitespace(s[0]) && !Text.IsWhitespace(s[|s| - 1]))
  }

  /** A property the parser can read back from its rendered line. */
  predicate Renderable(p: AlnProperty) {
    var name := KeyName(p.key);
    var v := p.value;
    && Clean(name)
    && (|name| > 0 ==> name[0] != '#')
    && (p.key.Custom? ==> name !in ReservedNames)
    && '\n' !in v
    && (|v| > 0 ==> !Text.IsWhitespace(v[0]) && !Text.IsWhitespace(v[|v| - 1]))
    && Unquoted(v)
  }

  /** The line `KEY=value` for a property. */
  function Render(p: AlnProperty): (line: string)
    ensures '=' in line
  {
    assert (KeyName(p.key) + "=" + p.value)[|KeyName(p.key)|] == '=';
    KeyName(p.key) + "=" + p.value
  }

  /** A text split at an '=' of which the left part holds none is split at its first '='. */
  lemma SplitOnceFirst(left: string, right: string)
    requires '=' !in left
    ensures Text.SplitOnce(left + "=" + right, '=') == Some((left, right))
  {
    var line := left + "=" + right;
    var (k, v) := Text.SplitOnce(line, '=').value;
    assert line == k + "=" + v;
    assert forall j :: 0 <= j < |left| ==> line[j] == left[j];
    assert forall j :: 0 <= j < |k| ==> line[j] == k[j];
    assert line[|left|] == '=' && line[|k|] == '=';
    assert |k| == |left|;
    assert k == line[..|left|] == left;
    assert v == line[|left| + 1..] == right;
  }

  /** A line `name=value` made of clean parts is read as exactly those parts. */
  lemma ParseCleanLine(name: string, value: string)
    requires Clean(name) && (|name| > 0 ==> name[0] != '#')
    requires '\n' !in value && (|value| > 0 ==> !Text.IsWhitespace(value[0]) && !Text.IsWhitespace(value[|value| - 1]))
    requires Unquoted(value)
    ensures ParseLine(name + "=" + value) == Some(AlnProperty(KeyOf(name), value))
  {
    var line := name + "=" + value;
    assert line[0] == if |name| > 0 then name[0] else '=';
    assert line[|line| - 1] == if |value| > 0 then value[|value| - 1] else '=';
    TrimByKeeps(line, Text.IsWhitespace);
    assert Text.Trim(line) == line;
    assert !Skipped(line);
    SplitOnceFirst(name, value);
    TrimByKeeps(name, Text.IsWhitespace);
    TrimByKeeps(value, Text.IsWhitespace);
    TrimByKeeps(value, Text.IsQuote);
  }

  /** Reading a rendered line gives the property back. */
  lemma ParseRenderedLine(p: AlnProperty)
    requires Renderable(p)
    ensures ParseLine(Render(p)) == Some(p)
  {
    ParseCleanLine(KeyName(p.key), p.value);
    KeyOfKeyName(p.key);
  }

  /** One rendered line per property, in order. */
  function RenderAll(ps: seq<AlnProperty>): (lines: seq<string>)
    ensures |lines| == |ps|
    ensures forall k :: 0 <= k < |ps| ==> lines[k] == Render(ps[k])
    decreases |ps|
  {
    if |ps| == 0 then [] else [Render(ps[0])] + RenderAll(ps[1..])
  }

  lemma JoinNotEmpty(lines: seq<string>)
    requires |lines| >= 1 && |lines[0]| > 0
    ensures |Text.JoinNewlines(lines)| > 0
  {
  }

  /** The text of a document: one rendered line per property, joined with '\n'. */
  function RenderDocument(doc: AlnDocument): (text: string)
    ensures |doc.properties| == 0 <==> |text| == 0
  {
    if |doc.properties| == 0 then ""
    else
      var lines := RenderAll(doc.properties);
      JoinNotEmpty(lines);
      Text.JoinNewlines(lines)
  }

  lemma RenderedLinesYield(ps: seq<AlnProperty>)
    requires forall k :: 0 <= k < |ps| ==> Renderable(ps[k])
    ensures forall k :: 0 <= k < |ps| ==> ParseLine(RenderAll(ps)[k]) == Some(ps[k])
  {
    forall k | 0 <= k < |ps|
      ensures ParseLine(RenderAll(ps)[k]) == Some(ps[k])
    {
      ParseRenderedLine(ps[k]);
    }
  }

  /** A rendered line holds no newline and does not end in a carriage return. */
  lemma RenderedLineShape(p: AlnProperty)
    requires Renderable(p)
    ensures '\n' !in Render(p)
    ensures |Render(p)| > 0 && Render(p)[|Render(p)| - 1] != '\r'
  {
    var name, v := KeyName(p.key), p.value;
    var line := name + "=" + v;
    assert line[|line| - 1] == if |v| > 0 then v[|v| - 1] else '=';
    assert forall c :: c in line ==> c in name || c == '=' || c in v;
  }

  /** The lines of a rendered document are the rendered properties. */
  lemma LinesOfRenderedDocument(doc: AlnDocument)
    requires forall k :: 0 <= k < |doc.properties| ==> Renderable(doc.properties[k])
    ensures Text.Lines(RenderDocument(doc)) == RenderAll(doc.properties)
  {
    var ps := doc.properties;
    var lines := RenderAll(ps);
    if |ps| == 0 {
      assert Text.Lines("") == [];
    } else {
      forall k | 0 <= k < |lines|
        ensures '\n' !in lines[k]
        ensures |lines[k]| == 0 || lines[k][|lines[k]| - 1] != '\r'
      {
        RenderedLineShape(ps[k]);
      }
      RenderedLineShape(ps[|ps| - 1]);
      Text.LinesOfJoin(lines);
    }
  }

  /** Parsing a rendered document gives the document back. */
  lemma ParseRenderedDocument(doc: AlnDocument)
    requires forall k :: 0 <= k < |doc.properties| ==> Renderable(doc.properties[k])
    ensures ParseAln(RenderDocument(doc)) == Ok(doc)
  {
    LinesOfRenderedDocument(doc);
    RenderedLinesYield(doc.properties);
    Seqs.FilterMapAllSome(RenderAll(doc.properties), doc.properties, ParseLine);
  }
}
