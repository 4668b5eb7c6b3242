/**
 * `rootEnv` of the app's Gradle build script: the value of a `KEY=VALUE`
 * line of the project's `.env` file, and how `defaultConfig` turns the
 * Gemini key into a warning and a `BuildConfig` field.
 */
module BuildScript {
  import opened Results
  import opened Text

  // ------------------------------------------------------------- readLines

  predicate IsLineBreak(c: char) {
    c == '\n' || c == '\r'
  }

  /** Length of the first line: the characters before the first line break. */
  function LineLength(s: string): (n: nat)
    ensures n <= |s|
    ensures forall i :: 0 <= i < n ==> !IsLineBreak(s[i])
    ensures n < |s| ==> IsLineBreak(s[n])
  {
    if s == [] || IsLineBreak(s[0]) then 0 else 1 + LineLength(s[1..])
  }

  /**
   * `File.readLines`: the text cut at "\n", "\r" and "\r\n"; a break at the
   * very end does not start another line.
   */
  function ReadLines(s: string): (lines: seq<string>)
    ensures lines == [] <==> s == []
    ensures forall i :: 0 <= i < |lines| ==> NoLineBreak(lines[i])
    decreases |s|
  {
    if s == [] then []
    else
      var n := LineLength(s);
      if n == |s| then [s]
      else
        var skip := if s[n] == '\r' && n + 1 < |s| && s[n + 1] == '\n' then 2 else 1;
        [s[..n]] + ReadLines(s[n + skip..])
  }

  predicate NoLineBreak(line: string) {
    forall i :: 0 <= i < |line| ==> !IsLineBreak(line[i])
  }

  /** Lines each ended by "\n", as an editor saves them. */
  function Terminated(lines: seq<string>): string
    decreases |lines|
  {
    if lines == [] then [] else lines[0] + "\n" + Terminated(lines[1..])
  }

  lemma {:induction false} LineLengthOfLine(line: string, rest: string)
    requires NoLineBreak(line)
    ensures LineLength(line + "\n" + rest) == |line|
  {
    if line != [] {
      assert (line + "\n" + rest)[1..] == line[1..] + "\n" + rest;
      LineLengthOfLine(line[1..], rest);
    }
  }

  /** Reading a saved file gives its lines back. */
  lemma {:induction false} ReadTerminated(lines: seq<string>)
    requires forall i :: 0 <= i < |lines| ==> NoLineBreak(lines[i])
    ensures ReadLines(Terminated(lines)) == lines
    decreases |lines|
  {
    if lines != [] {
      var s := Terminated(lines);
      var rest := Terminated(lines[1..]);
      assert s == lines[0] + "\n" + rest;
      LineLengthOfLine(lines[0], rest);
      var n := |lines[0]|;
      assert s[..n] == lines[0];
      assert s[n] == '\n';
      assert s[n + 1..] == rest;
      ReadTerminated(lines[1..]);
    }
  }

  // --------------------------------------------------------------- one line

  /** `split(sep, limit = 2)`: the text before the first `sep` and, if there is one, everything after it. */
  function SplitLimit2(s: string, sep: char): (parts: seq<string>)
    ensures 1 <= |parts| <= 2 && sep !in parts[0]
    ensures |parts| == 2 <==> sep in s
    ensures |parts| == 1 ==> parts[0] == s
    ensures |parts| == 2 ==> s == parts[0] + [sep] + parts[1]
  {
    if s == [] then [""]
    else if s[0] == sep then ["", s[1..]]
    else
      var rest := SplitLimit2(s[1..], sep);
      [[s[0]] + rest[0]] + rest[1..]
  }

  /** The split happens at the first `sep`, so the second part may hold more of them. */
  lemma {:induction false} SplitLimit2At(a: string, b: string, sep: char)
    requires sep !in a
    ensures SplitLimit2(a + [sep] + b, sep) == [a, b]
  {
    if a == [] {
      assert a + [sep] + b == [sep] + b;
      assert ([sep] + b)[1..] == b;
    } else {
      assert (a + [sep] + b)[1..] == a[1..] + [sep] + b;
      SplitLimit2At(a[1..], b, sep);
      assert [a[0]] + a[1..] == a;
    }
  }

  /** `line` is `key`, then '=', then the value; a key holding '=' never qualifies. */
  predicate IsKeyLine(line: string, key: string) {
    '=' !in key && |key| < |line| && line[..|key|] == key && line[|key|] == '='
  }

  /** The split's first part is `key` and there is a second part exactly on a key line; the second is the rest. */
  lemma SplitAtKey(line: string, key: string)
    ensures var parts := SplitLimit2(line, '=');
      (parts[0] == key && |parts| == 2 <==> IsKeyLine(line, key)) &&
      (IsKeyLine(line, key) ==> parts[1] == line[|key| + 1..])
  {
    var parts := SplitLimit2(line, '=');
    if parts[0] == key && |parts| == 2 {
      assert line == key + ['='] + parts[1];
      assert line[..|key|] == key;
    }
    if IsKeyLine(line, key) {
      var rest := line[|key| + 1..];
      assert line == key + ['='] + rest;
      SplitLimit2At(key, rest, '=');
    }
  }

  /** What the lambda gives for one line: the trimmed value when the text before the first '=' is `key`. */
  function LineValue(line: string, key: string): (r: Option<string>)
    ensures r.Some? <==> IsKeyLine(line, key)
    ensures r.Some? ==> r.value == Trim(line[|key| + 1..])
  {
    var parts := SplitLimit2(line, '=');
    SplitAtKey(line, key);
    if parts[0] == key && |parts| == 2 then Some(Trim(parts[1])) else None
  }

  /** `firstNotNullOfOrNull` over the lines. */
  function FirstValue(lines: seq<string>, key: string): (r: Option<string>)
    ensures r.Some? ==> exists j :: 0 <= j < |lines| && LineValue(lines[j], key) == r
    decreases |lines|
  {
    if lines == [] then None
    else match LineValue(lines[0], key)
      case Some(v) => Some(v)
      case None => FirstValue(lines[1..], key)
  }

  /** `rootEnv(key)`: "" without a `.env` file or without a matching line. */
  function RootEnv(envFile: Option<string>, key: string): (r: string)
    ensures envFile.None? ==> r == ""
    ensures Trim(r) == r
  {
    match envFile
    case None => ""
    case Some(text) =>
      var found := FirstValue(ReadLines(text), key);
      if found.Some? then FirstValueTrimmed(ReadLines(text), key); found.value else ""
  }

  lemma {:induction false} FirstValueTrimmed(lines: seq<string>, key: string)
    requires FirstValue(lines, key).Some?
    ensures Trim(FirstValue(lines, key).value) == FirstValue(lines, key).value
    decreases |lines|
  {
    var parts := SplitLimit2(lines[0], '=');
    if LineValue(lines[0], key).Some? {
      TrimIdempotent(parts[1]);
    } else {
      FirstValueTrimmed(lines[1..], key);
    }
  }

  // ------------------------------------------------------------- properties

  /** The first matching line decides; later lines with the same key are ignored. */
  lemma {:induction false} FirstMatchWins(lines: seq<string>, key: string, i: nat)
    requires i < |lines| && LineValue(lines[i], key).Some?
    requires forall j :: 0 <= j < i ==> LineValue(lines[j], key).None?
    ensures FirstValue(lines, key) == LineValue(lines[i], key)
    decreases i
  {
    if i > 0 {
      FirstMatchWins(lines[1..], key, i - 1);
    }
  }

  /** No value is found exactly when no line matches. */
  lemma {:induction false} NoMatchNoValue(lines: seq<string>, key: string)
    ensures FirstValue(lines, key).None? <==> forall j :: 0 <= j < |lines| ==> LineValue(lines[j], key).None?
    decreases |lines|
  {
    if lines != [] {
      NoMatchNoValue(lines[1..], key);
      if LineValue(lines[0], key).None? {
        forall j | 0 <= j < |lines[1..]| ensures lines[1..][j] == lines[j + 1] { }
      }
    }
  }

  /** A value may itself contain '=': only the first one separates. */
  lemma ValueMayContainSeparator(key: string, v: string)
    requires '=' !in key
    ensures LineValue(key + "=" + v, key) == Some(Trim(v))
  {
    SplitLimit2At(key, v, '=');
  }

  /** A line without '=' never matches. */
  lemma LineWithoutSeparator(line: string, key: string)
    requires '=' !in line
    ensures LineValue(line, key).None?
  {
  }

  /** The key side is not trimmed: a space before the key spoils the match. */
  lemma KeyNotTrimmed(key: string, v: string)
    requires '=' !in key
    ensures LineValue(" " + key + "=" + v, key).None?
  {
    SplitLimit2At(" " + key, v, '=');
  }

  /** For a saved `.env` file, `rootEnv` is the value of its first matching line, or "". */
  lemma RootEnvOfFile(lines: seq<string>, key: string)
    requires forall i :: 0 <= i < |lines| ==> NoLineBreak(lines[i])
    ensures RootEnv(Some(Terminated(lines)), key) == FirstValue(lines, key).GetOr("")
  {
    ReadTerminated(lines);
  }

  // ----------------------------------------------------------- defaultConfig

  const GeminiKeyName: string := "GEMINI_API_KEY"

  /** What `defaultConfig` does with the key: whether it warns, and the `BuildConfig` field's Java literal. */
  datatype GeminiKeyConfig = GeminiKeyConfig(warns: bool, fieldLiteral: string)

  /** The value between double quotes, not escaped. */
  function QuotedLiteral(v: string): string {
    "\"" + v + "\""
  }

  function DefaultConfig(envFile: Option<string>): (c: GeminiKeyConfig)
    ensures envFile.None? ==> c.warns && c.fieldLiteral == "\"\""
  {
    var key := RootEnv(envFile, GeminiKeyName);
    GeminiKeyConfig(IsBlank(key), QuotedLiteral(key))
  }

  /** Since the value is trimmed, the build warns exactly when the key is empty. */
  lemma WarnsIffEmpty(envFile: Option<string>)
    ensures DefaultConfig(envFile).warns <==> RootEnv(envFile, GeminiKeyName) == ""
  {
    TrimEmptyIffBlank(RootEnv(envFile, GeminiKeyName));
  }

  /** The literal holds the key verbatim between its quotes, so a quote in the key ends the literal early. */
  lemma LiteralNotEscaped(v: string)
    ensures var lit := QuotedLiteral(v); |lit| == |v| + 2 && lit[1..|lit| - 1] == v
    ensures '"' in v ==> exists i :: 0 < i < |v| + 1 && QuotedLiteral(v)[i] == '"'
  {
    var lit := QuotedLiteral(v);
    assert lit[1..|lit| - 1] == v;
    if '"' in v {
      var k :| 0 <= k < |v| && v[k] == '"';
      assert lit[k + 1] == v[k];
    }
  }
}
