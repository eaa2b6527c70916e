// The credential printers of bao-cred: shell exports, dotenv lines and escaped field
// paths, each with the reader that undoes it.
module Printers {
  import opened Options

  /** A value under the environment name it is printed with. */
  datatype Binding = Binding(name: string, value: string)

  predicate IsNameStart(c: char) {
    c == '_' || 'A' <= c <= 'Z' || 'a' <= c <= 'z'
  }

  predicate ValidName(name: string) {
    name != "" && IsNameStart(name[0]) && forall i :: 0 < i < |name| ==> IsNameStart(name[i]) || '0' <= name[i] <= '9'
  }

  /** The form NAME=value in which resolved mappings are passed around. */
  function Entry(b: Binding): string {
    b.name + "=" + b.value
  }

  function Entries(bs: seq<Binding>): (r: seq<string>)
    ensures |r| == |bs|
    ensures forall i :: 0 <= i < |bs| ==> r[i] == Entry(bs[i])
  {
    if bs == [] then [] else [Entry(bs[0])] + Entries(bs[1..])
  }

  /** strings.Cut(s, "="): what stands before and after the first equals sign. */
  function Cut(s: string): (string, string) {
    if s == "" then ("", "")
    else if s[0] == '=' then ("", s[1..])
    else
      var (name, rest) := Cut(s[1..]);
      ([s[0]] + name, rest)
  }

  lemma {:induction false} CutAtName(name: string, rest: string)
    requires '=' !in name
    ensures Cut(name + "=" + rest) == (name, rest)
  {
    var s := name + "=" + rest;
    if name == "" {
      assert s[1..] == rest;
    } else {
      assert s[1..] == name[1..] + "=" + rest && s[0] == name[0];
      CutAtName(name[1..], rest);
      assert [s[0]] + name[1..] == name;
    }
  }

  lemma {:induction false} NamesHaveNoEquals(name: string)
    requires ValidName(name)
    ensures '=' !in name && '\n' !in name
  {
  }

  lemma {:induction false} CutEntry(b: Binding)
    requires ValidName(b.name)
    ensures Cut(Entry(b)) == (b.name, b.value)
  {
    NamesHaveNoEquals(b.name);
    CutAtName(b.name, b.value);
  }

  // ---------------------------------------------------------------- mappings

  datatype Mapping = Mapping(name: string, path: string)

  predicate Resolves(lookup: string -> Option<string>, path: string) {
    lookup(path).Some? && '\0' !in lookup(path).value
  }

  /** The entries of mappings that look up one NUL-free scalar each, under distinct names. */
  method ResolveMappings(mappings: seq<Mapping>, lookup: string -> Option<string>) returns (values: Option<seq<string>>)
    ensures values.Some? <==>
            && (forall i, j :: 0 <= i < j < |mappings| ==> mappings[i].name != mappings[j].name)
            && (forall i :: 0 <= i < |mappings| ==> Resolves(lookup, mappings[i].path))
    ensures values.Some? ==> |values.value| == |mappings| && forall i :: 0 <= i < |mappings| ==>
              values.value[i] == Entry(Binding(mappings[i].name, lookup(mappings[i].path).value))
  {
    var seen: set<string> := {};
    var entries: seq<string> := [];
    for k := 0 to |mappings|
      invariant seen == set i | 0 <= i < k :: mappings[i].name
      invariant forall i, j :: 0 <= i < j < k ==> mappings[i].name != mappings[j].name
      invariant |entries| == k
      invariant forall i :: 0 <= i < k ==> Resolves(lookup, mappings[i].path)
      invariant forall i :: 0 <= i < k ==> entries[i] == Entry(Binding(mappings[i].name, lookup(mappings[i].path).value))
    {
      if mappings[k].name in seen {
        return None;
      }
      seen := seen + {mappings[k].name};
      var scalar := lookup(mappings[k].path);
      if scalar == None || '\0' in scalar.value {
        return None;
      }
      entries := entries + [Entry(Binding(mappings[k].name, scalar.value))];
    }
    return Some(entries);
  }

  // ------------------------------------------------------------------- shell

  const ESCAPED_QUOTE := "'\"'\"'"

  function QuoteShell(raw: string): string {
    if raw == "" then "" else (if raw[0] == '\'' then ESCAPED_QUOTE else [raw[0]]) + QuoteShell(raw[1..])
  }

  function ShellLine(entry: string): string {
    "export " + Cut(entry).0 + "='" + QuoteShell(Cut(entry).1) + "'\n"
  }

  function Shell(values: seq<string>, n: nat): string
    requires n <= |values|
  {
    if n == 0 then "" else Shell(values, n - 1) + ShellLine(values[n - 1])
  }

  method ReplaceQuotes(raw: string) returns (out: string)
    ensures out == QuoteShell(raw)
  {
    out := "";
    for k := 0 to |raw|
      invariant out + QuoteShell(raw[k..]) == QuoteShell(raw)
    {
      out := out + if raw[k] == '\'' then ESCAPED_QUOTE else [raw[k]];
    }
    assert raw[|raw|..] == "";
  }

  method RenderShell(values: seq<string>) returns (output: string)
    ensures output == Shell(values, |values|)
  {
    output := "";
    for k := 0 to |values|
      invariant output == Shell(values, k)
    {
      var (name, raw) := Cut(values[k]);
      var quoted := ReplaceQuotes(raw);
      output := output + ("export " + name + "='" + quoted + "'\n");
    }
  }

  // Reading a shell word up to the end of its line, by the quoting rules of sections 2.2.2
  // (single quotes) and 2.2.3 (double quotes) of the POSIX.1-2017 Shell Command Language.
  // Expansions and characters outside quotes are not read.

  function Prepend(c: char, r: Option<(string, string)>): Option<(string, string)> {
    match r
    case None => None
    case Some((word, rest)) => Some(([c] + word, rest))
  }

  function Unquoted(s: string): Option<(string, string)>
    decreases |s|
  {
    if s == "" then None
    else if s[0] == '\n' then Some(("", s[1..]))
    else if s[0] == '\'' then SingleQuoted(s[1..])
    else if s[0] == '"' then DoubleQuoted(s[1..])
    else None
  }

  function SingleQuoted(s: string): Option<(string, string)>
    decreases |s|
  {
    if s == "" then None
    else if s[0] == '\'' then Unquoted(s[1..])
    else Prepend(s[0], SingleQuoted(s[1..]))
  }

  function DoubleQuoted(s: string): Option<(string, string)>
    decreases |s|
  {
    if s == "" || s[0] == '$' || s[0] == '`' then None
    else if s[0] == '"' then Unquoted(s[1..])
    else if s[0] == '\\' && |s| > 1 && s[1] in "$`\"\\" then Prepend(s[1], DoubleQuoted(s[2..]))
    else Prepend(s[0], DoubleQuoted(s[1..]))
  }

  /** The bindings of a file of export lines. */
  function ReadShell(text: string): Option<seq<Binding>>
    decreases |text|
  {
    if text == "" then Some([])
    else if !("export " <= text) then None
    else
      var (name, word) := Cut(text[7..]);
      match Unquoted(word)
      case None => None
      case Some((value, rest)) =>
        if |rest| >= |text| then None
        else match ReadShell(rest)
          case None => None
          case Some(bs) => Some([Binding(name, value)] + bs)
  }

  // The text after one quoted character.
  lemma {:induction false} QuotedTail(raw: string, rest: string)
    requires raw != ""
    ensures var s, tail := QuoteShell(raw) + "'\n" + rest, QuoteShell(raw[1..]) + "'\n" + rest;
            s == (if raw[0] == '\'' then ESCAPED_QUOTE else [raw[0]]) + tail
  {
  }

  lemma {:induction false} PlainChar(c: char, tail: string)
    requires c != '\''
    ensures SingleQuoted([c] + tail) == Prepend(c, SingleQuoted(tail))
  {
    assert ([c] + tail)[1..] == tail;
  }

  lemma {:induction false} ClosingQuote(rest: string)
    ensures SingleQuoted("'\n" + rest) == Some(("", rest))
  {
    var s := "'\n" + rest;
    assert s[1..] == "\n" + rest && s[1..][1..] == rest;
  }

  lemma {:induction false} QuotedReadsBack(raw: string, rest: string)
    ensures SingleQuoted(QuoteShell(raw) + "'\n" + rest) == Some((raw, rest))
  {
    if raw == "" {
      assert QuoteShell(raw) + "'\n" + rest == "'\n" + rest;
      ClosingQuote(rest);
    } else {
      var tail := QuoteShell(raw[1..]) + "'\n" + rest;
      QuotedReadsBack(raw[1..], rest);
      QuotedTail(raw, rest);
      if raw[0] == '\'' {
        QuoteEscape(ESCAPED_QUOTE + tail, tail);
      } else {
        PlainChar(raw[0], tail);
      }
      assert raw == [raw[0]] + raw[1..];
    }
  }

  lemma {:induction false} QuoteEscape(s: string, tail: string)
    requires s == ESCAPED_QUOTE + tail
    ensures SingleQuoted(s) == Prepend('\'', SingleQuoted(tail))
  {
    var s1, s2, s3, s4 := s[1..], s[2..], s[3..], s[4..];
    assert s1[1..] == s2 && s2[1..] == s3 && s3[1..] == s4 && s4[1..] == tail;
    assert SingleQuoted(s) == Unquoted(s1);
    assert Unquoted(s1) == DoubleQuoted(s2);
    assert DoubleQuoted(s2) == Prepend('\'', DoubleQuoted(s3));
    assert DoubleQuoted(s3) == Unquoted(s4);
    assert Unquoted(s4) == SingleQuoted(tail);
  }

  lemma {:induction false} ShellLineText(b: Binding, rest: string)
    requires ValidName(b.name)
    ensures ShellLine(Entry(b)) + rest == "export " + (b.name + "=" + ("'" + QuoteShell(b.value) + "'\n" + rest))
  {
    CutEntry(b);
  }

  lemma {:induction false} WordReadsBack(raw: string, rest: string)
    ensures Unquoted("'" + QuoteShell(raw) + "'\n" + rest) == Some((raw, rest))
  {
    var word := "'" + QuoteShell(raw) + "'\n" + rest;
    assert word[1..] == QuoteShell(raw) + "'\n" + rest;
    QuotedReadsBack(raw, rest);
  }

  lemma {:induction false} ShellLineReadsBack(b: Binding, rest: string)
    requires ValidName(b.name)
    ensures var text := ShellLine(Entry(b)) + rest;
            && "export " <= text
            && Cut(text[7..]) == (b.name, "'" + QuoteShell(b.value) + "'\n" + rest)
            && Unquoted("'" + QuoteShell(b.value) + "'\n" + rest) == Some((b.value, rest))
  {
    var word := "'" + QuoteShell(b.value) + "'\n" + rest;
    ShellLineText(b, rest);
    NamesHaveNoEquals(b.name);
    CutAtName(b.name, word);
    WordReadsBack(b.value, rest);
  }

  // The lines after the first.
  lemma {:induction false} ShellSplit(values: seq<string>, n: nat)
    requires 0 < n <= |values|
    ensures Shell(values, n) == ShellLine(values[0]) + Shell(values[1..], n - 1)
  {
    if n > 1 {
      ShellSplit(values, n - 1);
    }
  }

  /** A shell reading the exports gets back every name and every value. */
  lemma {:induction false} ReadShellStep(text: string, b: Binding, word: string, rest: string)
    requires "export " <= text && Cut(text[7..]) == (b.name, word) && Unquoted(word) == Some((b.value, rest)) && |rest| < |text|
    ensures ReadShell(text) == match ReadShell(rest) case None => None case Some(bs) => Some([b] + bs)
  {
  }

  /** Reading the exports back by the shell's quoting rules gives the bindings. */
  lemma {:induction false} ShellRoundTrip(bs: seq<Binding>)
    requires forall b :: b in bs ==> ValidName(b.name)
    ensures ReadShell(Shell(Entries(bs), |bs|)) == Some(bs)
  {
    if bs != [] {
      var values := Entries(bs);
      var rest := Shell(Entries(bs[1..]), |bs| - 1);
      ShellRoundTrip(bs[1..]);
      ShellSplit(values, |bs|);
      assert values[1..] == Entries(bs[1..]);
      ShellLineReadsBack(bs[0], rest);
      ReadShellStep(ShellLine(Entry(bs[0])) + rest, bs[0], "'" + QuoteShell(bs[0].value) + "'\n" + rest, rest);
      assert bs == [bs[0]] + bs[1..];
    }
  }

  // ------------------------------------------------------------------ dotenv

  function EscapeChar(c: char): string {
    if c == '\\' then "\\\\" else if c == '"' then "\\\"" else if c == '\n' then "\\n"
    else if c == '\r' then "\\r" else if c == '\t' then "\\t" else [c]
  }

  function EscapeDotenv(raw: string): string {
    if raw == "" then "" else EscapeChar(raw[0]) + EscapeDotenv(raw[1..])
  }

  function DotenvLine(entry: string): string {
    Cut(entry).0 + "=\"" + EscapeDotenv(Cut(entry).1) + "\"\n"
  }

  function Dotenv(values: seq<string>, n: nat): string
    requires n <= |values|
  {
    if n == 0 then "" else Dotenv(values, n - 1) + DotenvLine(values[n - 1])
  }

  method ReplaceSpecial(raw: string) returns (out: string)
    ensures out == EscapeDotenv(raw)
  {
    out := "";
    for k := 0 to |raw|
      invariant out + EscapeDotenv(raw[k..]) == EscapeDotenv(raw)
    {
      out := out + EscapeChar(raw[k]);
    }
    assert raw[|raw|..] == "";
  }

  method RenderDotenv(values: seq<string>) returns (output: string)
    ensures output == Dotenv(values, |values|)
  {
    output := "";
    for k := 0 to |values|
      invariant output == Dotenv(values, k)
    {
      var (name, raw) := Cut(values[k]);
      var escaped := ReplaceSpecial(raw);
      output := output + (name + "=\"" + escaped + "\"\n");
    }
  }

  function UnescapeChar(c: char): Option<char> {
    if c == '\\' || c == '"' then Some(c)
    else if c == 'n' then Some('\n') else if c == 'r' then Some('\r') else if c == 't' then Some('\t') else None
  }

  /** A double-quoted value up to its closing quote, which ends its line. */
  function ReadQuoted(line: string): Option<string> {
    if line == "" then None
    else if line[0] == '"' then if |line| == 1 then Some("") else None
    else if line[0] == '\\' then
      if |line| < 2 then None
      else match (UnescapeChar(line[1]), ReadQuoted(line[2..]))
        case (Some(c), Some(value)) => Some([c] + value)
        case _ => None
    else match ReadQuoted(line[1..])
      case Some(value) => Some([line[0]] + value)
      case None => None
  }

  function LineEnd(text: string): (n: nat)
    ensures n <= |text| && '\n' !in text[..n] && (n < |text| ==> text[n] == '\n')
  {
    if text == "" || text[0] == '\n' then 0
    else
      var n := LineEnd(text[1..]) + 1;
      assert text[..n] == [text[0]] + text[1..][..n - 1];
      n
  }

  /** The bindings of a dotenv file, line by line. */
  function ReadDotenv(text: string): Option<seq<Binding>>
    decreases |text|
  {
    if text == "" then Some([])
    else
      var n := LineEnd(text);
      if n == |text| then None
      else
        var (name, quoted) := Cut(text[..n]);
        if quoted == "" || quoted[0] != '"' then None
        else match (ReadQuoted(quoted[1..]), ReadDotenv(text[n + 1..]))
          case (Some(value), Some(bs)) => Some([Binding(name, value)] + bs)
          case _ => None
  }

  // Reading one escaped character.
  lemma {:induction false} ReadEscaped(line: string, c: char, tail: string)
    requires line == EscapeChar(c) + tail
    ensures ReadQuoted(line) == match ReadQuoted(tail) case Some(value) => Some([c] + value) case None => None
    ensures '\n' !in EscapeChar(c)
  {
    if |EscapeChar(c)| == 2 {
      assert line[2..] == tail;
    } else {
      assert line[1..] == tail;
    }
  }

  lemma {:induction false} EscapedReadsBack(raw: string)
    ensures ReadQuoted(EscapeDotenv(raw) + "\"") == Some(raw)
    ensures '\n' !in EscapeDotenv(raw)
  {
    if raw == "" {
      assert EscapeDotenv(raw) + "\"" == "\"";
    } else {
      EscapedReadsBack(raw[1..]);
      ReadEscaped(EscapeDotenv(raw) + "\"", raw[0], EscapeDotenv(raw[1..]) + "\"");
      assert raw == [raw[0]] + raw[1..];
    }
  }

  lemma {:induction false} LineEndIs(line: string, rest: string)
    requires '\n' !in line
    ensures LineEnd(line + "\n" + rest) == |line|
    ensures (line + "\n" + rest)[..|line|] == line && (line + "\n" + rest)[|line| + 1..] == rest
  {
    var text := line + "\n" + rest;
    var n := LineEnd(text);
    assert text[|line|] == '\n';
    assert forall i :: 0 <= i < |line| ==> text[i] == line[i];
    assert forall i :: 0 <= i < n ==> text[..n][i] == text[i];
  }

  lemma {:induction false} DotenvSplit(values: seq<string>, n: nat)
    requires 0 < n <= |values|
    ensures Dotenv(values, n) == DotenvLine(values[0]) + Dotenv(values[1..], n - 1)
  {
    if n > 1 {
      DotenvSplit(values, n - 1);
    }
  }

  lemma {:induction false} DotenvLineText(b: Binding, rest: string)
    requires ValidName(b.name)
    ensures DotenvLine(Entry(b)) + rest == b.name + "=" + ("\"" + EscapeDotenv(b.value) + "\"") + "\n" + rest
  {
    CutEntry(b);
  }

  lemma {:induction false} DotenvLineReadsBack(b: Binding, rest: string)
    requires ValidName(b.name)
    ensures var text, line := DotenvLine(Entry(b)) + rest, b.name + "=" + ("\"" + EscapeDotenv(b.value) + "\"");
            && text == line + "\n" + rest && '\n' !in line
            && Cut(line) == (b.name, "\"" + EscapeDotenv(b.value) + "\"")
            && ReadQuoted(EscapeDotenv(b.value) + "\"") == Some(b.value)
  {
    DotenvLineText(b, rest);
    NamesHaveNoEquals(b.name);
    EscapedReadsBack(b.value);
    CutAtName(b.name, "\"" + EscapeDotenv(b.value) + "\"");
  }

  /** Un-escaping the dotenv lines gives back every name and every value. */
  lemma {:induction false} DotenvRoundTrip(bs: seq<Binding>)
    requires forall b :: b in bs ==> ValidName(b.name)
    ensures ReadDotenv(Dotenv(Entries(bs), |bs|)) == Some(bs)
  {
    if bs != [] {
      var values, b := Entries(bs), bs[0];
      var rest := Dotenv(Entries(bs[1..]), |bs| - 1);
      DotenvRoundTrip(bs[1..]);
      DotenvSplit(values, |bs|);
      assert values[1..] == Entries(bs[1..]);
      DotenvLineReadsBack(b, rest);
      ReadDotenvStep(b, rest);
      assert bs == [bs[0]] + bs[1..];
    }
  }

  lemma {:induction false} ReadDotenvStep(b: Binding, rest: string)
    requires ValidName(b.name)
    ensures ReadDotenv(DotenvLine(Entry(b)) + rest) ==
            match ReadDotenv(rest) case Some(bs) => Some([b] + bs) case None => None
  {
    DotenvLineReadsBack(b, rest);
    var quoted := "\"" + EscapeDotenv(b.value) + "\"";
    var line := b.name + "=" + quoted;
    LineEndIs(line, rest);
    assert quoted[1..] == EscapeDotenv(b.value) + "\"";
  }

  // -------------------------------------------------------------- field paths

  /** The scan of a field path, with the finished segments, the open one and a pending escape. */
  function Scan(path: string, segments: seq<string>, segment: string, escaped: bool): Option<seq<string>> {
    if path == "" then if escaped || segment == "" then None else Some(segments + [segment])
    else if escaped then Scan(path[1..], segments, segment + [path[0]], false)
    else if path[0] == '\\' then Scan(path[1..], segments, segment, true)
    else if path[0] == '.' then if segment == "" then None else Scan(path[1..], segments + [segment], "", false)
    else Scan(path[1..], segments, segment + [path[0]], false)
  }

  method SplitPath(path: string) returns (result: Option<seq<string>>)
    ensures result == if path == "" then None else Scan(path, [], "", false)
  {
    if path == "" {
      return None;
    }
    var segments: seq<string> := [];
    var segment := "";
    var escaped := false;
    for k := 0 to |path|
      invariant Scan(path, [], "", false) == Scan(path[k..], segments, segment, escaped)
    {
      var character := path[k];
      assert path[k..][1..] == path[k + 1..];
      if escaped {
        segment := segment + [character];
        escaped := false;
        continue;
      }
      if character == '\\' {
        escaped := true;
        continue;
      }
      if character == '.' {
        if segment == "" {
          return None;
        }
        segments := segments + [segment];
        segment := "";
        continue;
      }
      segment := segment + [character];
    }
    if escaped || segment == "" {
      return None;
    }
    return Some(segments + [segment]);
  }

  function EscapeOne(c: char): string {
    if c == '.' || c == '\\' then ['\\', c] else [c]
  }

  function EscapeSegment(s: string): string {
    if s == "" then "" else EscapeOne(s[0]) + EscapeSegment(s[1..])
  }

  function JoinPath(segments: seq<string>): string {
    if segments == [] then ""
    else if |segments| == 1 then EscapeSegment(segments[0])
    else EscapeSegment(segments[0]) + "." + JoinPath(segments[1..])
  }

  // Scanning one escaped character.
  lemma {:induction false} ScanChar(path: string, c: char, tail: string, segments: seq<string>, segment: string)
    requires path == EscapeOne(c) + tail
    ensures Scan(path, segments, segment, false) == Scan(tail, segments, segment + [c], false)
  {
    if c == '.' || c == '\\' {
      assert path[1..] == [c] + tail && path[1..][1..] == tail;
    } else {
      assert path[1..] == tail;
    }
  }

  lemma {:induction false} EscapedFirst(s: string, rest: string)
    requires s != ""
    ensures EscapeSegment(s) + rest == EscapeOne(s[0]) + (EscapeSegment(s[1..]) + rest)
  {
  }

  lemma {:induction false} FirstAndRest(segment: string, s: string)
    requires s != ""
    ensures segment + [s[0]] + s[1..] == segment + s
  {
  }

  lemma {:induction false} ScanSegment(s: string, rest: string, segments: seq<string>, segment: string)
    ensures Scan(EscapeSegment(s) + rest, segments, segment, false) == Scan(rest, segments, segment + s, false)
  {
    if s == "" {
      assert EscapeSegment(s) + rest == rest && segment + s == segment;
    } else {
      EscapedFirst(s, rest);
      FirstAndRest(segment, s);
      ScanSegment(s[1..], rest, segments, segment + [s[0]]);
      ScanChar(EscapeSegment(s) + rest, s[0], EscapeSegment(s[1..]) + rest, segments, segment);
    }
  }

  lemma {:induction false} ScanJoined(todo: seq<string>, done: seq<string>)
    requires todo != [] && forall s :: s in todo ==> s != ""
    ensures Scan(JoinPath(todo), done, "", false) == Some(done + todo)
  {
    var s := todo[0];
    assert s in todo && forall x :: x in todo[1..] ==> x in todo;
    if |todo| == 1 {
      ScanSegment(s, "", done, "");
      assert EscapeSegment(s) + "" == EscapeSegment(s) && "" + s == s && todo == [s];
    } else {
      var rest := "." + JoinPath(todo[1..]);
      assert JoinPath(todo) == EscapeSegment(s) + rest;
      ScanSegment(s, rest, done, "");
      assert "" + s == s && rest[1..] == JoinPath(todo[1..]);
      ScanJoined(todo[1..], done + [s]);
      assert done + [s] + todo[1..] == done + todo;
    }
  }

  /** Splitting undoes the escaping of dots and backslashes, for any non-empty list of non-empty segments. */
  lemma {:induction false} SplitPathRoundTrip(segments: seq<string>)
    requires segments != [] && forall s :: s in segments ==> s != ""
    ensures JoinPath(segments) != "" && Scan(JoinPath(segments), [], "", false) == Some(segments)
  {
    ScanJoined(segments, []);
    assert [] + segments == segments;
  }

  /** path spells `first`, and after a dot each of the non-empty `rest`; a backslash makes any character literal. */
  predicate Spells(path: string, first: string, rest: seq<string>) {
    if path == "" then first == "" && rest == []
    else if path[0] == '\\' then |path| > 1 && first != "" && first[0] == path[1] && Spells(path[2..], first[1..], rest)
    else if path[0] == '.' then first == "" && rest != [] && rest[0] != "" && Spells(path[1..], rest[0], rest[1..])
    else first != "" && first[0] == path[0] && Spells(path[1..], first[1..], rest)
  }

  lemma {:induction false} ScanSpelled(path: string, done: seq<string>, segment: string, first: string, rest: seq<string>)
    requires Spells(path, first, rest) && segment + first != ""
    ensures Scan(path, done, segment, false) == Some(done + [segment + first] + rest)
    decreases |path|
  {
    if path == "" {
      assert segment + first == segment && done + [segment] + rest == done + [segment];
    } else if path[0] == '\\' {
      assert segment + [path[1]] + first[1..] == segment + first && path[1..][1..] == path[2..];
      ScanSpelled(path[2..], done, segment + [path[1]], first[1..], rest);
    } else if path[0] == '.' {
      assert segment + first == segment && "" + rest[0] == rest[0];
      ScanSpelled(path[1..], done + [segment], "", rest[0], rest[1..]);
      assert done + [segment] + [rest[0]] + rest[1..] == done + [segment] + rest;
    } else {
      assert segment + [path[0]] + first[1..] == segment + first;
      ScanSpelled(path[1..], done, segment + [path[0]], first[1..], rest);
    }
  }

  /** Where scanning leads: the segment being read, completed by `first`, and the ones after it. */
  ghost predicate Led(path: string, done: seq<string>, segment: string, found: seq<string>) {
    && |done| < |found| && found[..|done|] == done
    && found[|done|] != "" && segment <= found[|done|]
    && Spells(path, found[|done|][|segment|..], found[|done| + 1..])
  }

  lemma {:induction false} SpelledWhenScanned(path: string, done: seq<string>, segment: string)
    requires Scan(path, done, segment, false).Some?
    ensures Led(path, done, segment, Scan(path, done, segment, false).value)
    decreases |path|
  {
    var found := Scan(path, done, segment, false).value;
    if path == "" {
    } else if path[0] == '\\' {
      assert path[1..][1..] == path[2..];
      SpelledWhenScanned(path[2..], done, segment + [path[1]]);
      OneFurther(found[|done|], segment, path[1]);
    } else if path[0] == '.' {
      SpelledWhenScanned(path[1..], done + [segment], "");
      assert found[..|done|] == found[..|done| + 1][..|done|] && found[|done|] == found[..|done| + 1][|done|];
      var rest := found[|done| + 1..];
      assert rest[0] == found[|done| + 1] && rest[0][0..] == rest[0] && rest[1..] == found[|done| + 2..];
    } else {
      SpelledWhenScanned(path[1..], done, segment + [path[0]]);
      OneFurther(found[|done|], segment, path[0]);
    }
  }

  lemma {:induction false} OneFurther(word: string, segment: string, c: char)
    requires segment + [c] <= word
    ensures segment <= word && word[|segment|..] != "" && word[|segment|..][0] == c
    ensures word[|segment|..][1..] == word[|segment + [c]|..]
  {
    assert word[|segment|] == (segment + [c])[|segment|];
  }

  /** Splitting succeeds exactly on spellings of a non-empty list of non-empty segments, and gives that list. */
  lemma {:induction false} SplitPathExact(path: string, segments: seq<string>)
    ensures path != "" && Scan(path, [], "", false) == Some(segments) <==>
            segments != [] && segments[0] != "" && Spells(path, segments[0], segments[1..])
  {
    if Scan(path, [], "", false) == Some(segments) {
      SpelledWhenScanned(path, [], "");
      assert segments[0][0..] == segments[0];
    }
    if segments != [] && segments[0] != "" && Spells(path, segments[0], segments[1..]) {
      ScanSpelled(path, [], "", segments[0], segments[1..]);
      assert "" + segments[0] == segments[0] && [] + [segments[0]] + segments[1..] == segments;
    }
  }
}
