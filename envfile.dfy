/** The per-line transform of loadEnvFile (main.go:130-163): trim, skip blank
    and comment lines, split at the first '=', trim both sides and strip one
    pair of matching surrounding quotes. Opening the file, reading its lines
    and setting the process environment are I/O and are not modelled. */
module EnvFile {
  import opened Common

  /** White space as strings.TrimSpace sees it (unicode.IsSpace). */
  const Spaces: set<char> := {
    ' ', '\t', '\n', '\r', '\U{0B}', '\U{0C}', '\U{85}', '\U{A0}', '\U{1680}',
    '\U{2000}', '\U{2001}', '\U{2002}', '\U{2003}', '\U{2004}', '\U{2005}',
    '\U{2006}', '\U{2007}', '\U{2008}', '\U{2009}', '\U{200A}',
    '\U{2028}', '\U{2029}', '\U{202F}', '\U{205F}', '\U{3000}'}

  predicate IsSpace(c: char) {
    c in Spaces
  }

  /** The number of white space characters `s` starts with. */
  function LeadingSpaces(s: string): (n: nat)
    ensures n <= |s|
    ensures forall i | 0 <= i < n :: IsSpace(s[i])
    ensures n == |s| || !IsSpace(s[n])
  {
    if s != [] && IsSpace(s[0]) then 1 + LeadingSpaces(s[1..]) else 0
  }

  /** The length of `s` without the white space it ends with. */
  function TrailingStart(s: string): (m: nat)
    ensures m <= |s|
    ensures forall i | m <= i < |s| :: IsSpace(s[i])
    ensures m == 0 || !IsSpace(s[m - 1])
  {
    if s != [] && IsSpace(s[|s| - 1]) then TrailingStart(s[..|s| - 1]) else |s|
  }

  /** strings.TrimSpace: the part of `s` between its leading and trailing
      white space. */
  function TrimSpace(s: string): (r: string)
    ensures r == [] || (!IsSpace(r[0]) && !IsSpace(r[|r| - 1]))
    ensures forall c | c in r :: c in s
  {
    var l := s[LeadingSpaces(s)..];
    l[..TrailingStart(l)]
  }

  /** What TrimSpace removes is white space at the two ends, nothing else. */
  lemma TrimSpaceInfix(s: string)
    ensures exists i, j | 0 <= i <= j <= |s| ::
      && TrimSpace(s) == s[i..j]
      && (forall k | 0 <= k < i :: IsSpace(s[k]))
      && (forall k | j <= k < |s| :: IsSpace(s[k]))
  {
    var i := LeadingSpaces(s);
    var l := s[i..];
    var j := i + TrailingStart(l);
    assert TrimSpace(s) == s[i..j];
    assert forall k | j <= k < |s| :: s[k] == l[k - i];
  }

  /** A string that neither starts nor ends with white space is already trimmed. */
  lemma {:induction false} TrimSpaceOfTrimmed(s: string)
    requires s == [] || (!IsSpace(s[0]) && !IsSpace(s[|s| - 1]))
    ensures TrimSpace(s) == s
  {
  }

  /** Trimming twice is trimming once. */
  lemma TrimSpaceIdempotent(s: string)
    ensures TrimSpace(TrimSpace(s)) == TrimSpace(s)
  {
    TrimSpaceOfTrimmed(TrimSpace(s));
  }

  /** The position of the first '=' of a string, if any. */
  function FirstEquals(s: string): (r: Option<nat>)
    ensures r.None? <==> '=' !in s
    ensures r.Some? ==> r.value < |s| && s[r.value] == '=' && '=' !in s[..r.value]
  {
    if s == [] then None
    else if s[0] == '=' then Some(0)
    else match FirstEquals(s[1..])
      case None => None
      case Some(k) =>
        assert s[1..][..k] == s[1..k + 1];
        assert s[..k + 1] == [s[0]] + s[1..k + 1];
        Some(k + 1)
  }

  /** The first '=' is the one with no '=' before it. */
  lemma FirstEqualsAt(s: string, k: nat)
    requires k < |s| && s[k] == '=' && '=' !in s[..k]
    ensures FirstEquals(s) == Some(k)
  {
    assert '=' in s;
    var m := FirstEquals(s).value;
    assert forall j | 0 <= j < k :: s[j] == s[..k][j];
    assert forall j | 0 <= j < m :: s[j] == s[..m][j];
  }

  datatype Setting = Setting(key: string, value: string)

  /** The value is enclosed in a matching pair of the same quote character;
      a single quote character counts, as in the source's two checks. */
  predicate QuoteDelimited(v: string) {
    |v| >= 1 && ((v[0] == '"' && v[|v| - 1] == '"') || (v[0] == '\'' && v[|v| - 1] == '\''))
  }

  /** A value that is one quote character on its own. */
  predicate LoneQuote(v: string) {
    v == "\"" || v == "'"
  }

  /** The quote stripping as written: a delimited value is sliced as
      value[1 : len(value) - 1], which is a run-time panic when the value is a
      single quote character. None stands for that panic. */
  function UnquoteAsWritten(v: string): (r: Option<string>)
    ensures r.None? <==> LoneQuote(v)
    ensures r.Some? ==> r.value == Unquote(v)
  {
    if QuoteDelimited(v) then
      if 1 <= |v| - 1 then Some(v[1..|v| - 1]) else None
    else Some(v)
  }

  /** The stripping slices only when there are two quote characters to strip. */
  function Unquote(v: string): (r: string)
    ensures QuoteDelimited(v) && |v| >= 2 ==> r == v[1..|v| - 1]
    ensures !(QuoteDelimited(v) && |v| >= 2) ==> r == v
  {
    if QuoteDelimited(v) && |v| >= 2 then v[1..|v| - 1] else v
  }

  datatype LineOutcome = Skip | Assign(setting: Setting) | Panic

  /** One line of the file as the source treats it: it panics exactly when the
      trimmed line is an assignment whose trimmed value is a lone quote, and
      otherwise gives the answer of the corrected parser. */
  function ParseLineAsWritten(raw: string): (r: LineOutcome)
    ensures r == Panic <==>
      && TrimSpace(raw) != [] && TrimSpace(raw)[0] != '#' && FirstEquals(TrimSpace(raw)).Some?
      && LoneQuote(TrimSpace(TrimSpace(raw)[FirstEquals(TrimSpace(raw)).value + 1..]))
    ensures r != Panic ==> (r == Skip <==> ParseLine(raw).None?)
    ensures r.Assign? ==> ParseLine(raw) == Some(r.setting)
  {
    ParseTrimmedAsWritten(TrimSpace(raw))
  }

  /** The same, on the line once trimmed: blank and comment lines and lines
      without '=' are skipped, otherwise the line splits at its first '='. */
  function ParseTrimmedAsWritten(line: string): (r: LineOutcome)
    ensures r == Panic <==>
      && line != [] && line[0] != '#' && FirstEquals(line).Some?
      && LoneQuote(TrimSpace(line[FirstEquals(line).value + 1..]))
    ensures r != Panic ==> (r == Skip <==> ParseTrimmed(line).None?)
    ensures r.Assign? ==> ParseTrimmed(line) == Some(r.setting)
  {
    if line == [] || line[0] == '#' then Skip
    else match FirstEquals(line)
      case None => Skip
      case Some(k) =>
        assert k == FirstEquals(line).value;
        AssignAsWritten(TrimSpace(line[..k]), TrimSpace(line[k + 1..]))
  }

  /** The assignment of a split line as written: the stripping panics on a
      lone quote and otherwise strips what Unquote strips. */
  function AssignAsWritten(key: string, value: string): (r: LineOutcome)
    ensures r == Panic <==> LoneQuote(value)
    ensures r != Panic ==> r == Assign(Setting(key, Unquote(value)))
  {
    match UnquoteAsWritten(value)
    case None => Panic
    case Some(v) => Assign(Setting(key, v))
  }

  /** One line of the file with the stripping that cannot panic: the key is
      the trimmed text before the first '=' of the trimmed line, the value the
      trimmed text after it without one pair of surrounding quotes. */
  function ParseLine(raw: string): (r: Option<Setting>)
    ensures r.None? <==>
      TrimSpace(raw) == [] || TrimSpace(raw)[0] == '#' || '=' !in TrimSpace(raw)
    ensures r.Some? ==>
      && FirstEquals(TrimSpace(raw)).Some?
      && r.value.key == TrimSpace(TrimSpace(raw)[..FirstEquals(TrimSpace(raw)).value])
      && r.value.value == Unquote(TrimSpace(TrimSpace(raw)[FirstEquals(TrimSpace(raw)).value + 1..]))
  {
    ParseTrimmed(TrimSpace(raw))
  }

  /** The corrected parser on the line once trimmed. */
  function ParseTrimmed(line: string): (r: Option<Setting>)
    ensures r.None? <==> line == [] || line[0] == '#' || '=' !in line
    ensures r.Some? ==>
      && FirstEquals(line).Some?
      && r.value.key == TrimSpace(line[..FirstEquals(line).value])
      && r.value.value == Unquote(TrimSpace(line[FirstEquals(line).value + 1..]))
  {
    if line == [] || line[0] == '#' then None
    else match FirstEquals(line)
      case None => None
      case Some(k) =>
        assert k == FirstEquals(line).value;
        var key := TrimSpace(line[..k]);
        var value := TrimSpace(line[k + 1..]);
        Some(Setting(key, Unquote(value)))
  }

  /** A parsed key holds no '=' and neither starts nor ends with white space. */
  lemma ParsedKeyShape(raw: string)
    requires ParseLine(raw).Some?
    ensures '=' !in ParseLine(raw).value.key
    ensures var key := ParseLine(raw).value.key;
      key == [] || (!IsSpace(key[0]) && !IsSpace(key[|key| - 1]))
  {
    var before := TrimSpace(raw)[..FirstEquals(TrimSpace(raw)).value];
    assert forall c | c in TrimSpace(before) :: c in before;
  }

  /** A line whose value is a lone double quote crashes the loader. */
  lemma LoneQuoteLinePanics()
    ensures ParseLineAsWritten("KEY=\"") == Panic
  {
    var line := "KEY=\"";
    assert line[0] == 'K' && line[|line| - 1] == '"';
    TrimSpaceOfTrimmed(line);
    assert line[4..] == "\"";
    FirstEqualsAt(line, 3);
    TrimSpaceOfTrimmed("\"");
  }

  /** A key the loader reads back unchanged: trimmed, without '=', and not
      starting a comment. */
  predicate PlainKey(key: string) {
    && '=' !in key
    && (key == [] || (!IsSpace(key[0]) && !IsSpace(key[|key| - 1]) && key[0] != '#'))
  }

  /** A `key=value` line with no '=' in the key splits right after the key. */
  lemma SplitAfterKey(key: string, value: string)
    requires '=' !in key
    ensures FirstEquals(key + "=" + value) == Some(|key|)
    ensures (key + "=" + value)[..|key|] == key && (key + "=" + value)[|key| + 1..] == value
  {
    var line := key + "=" + value;
    assert line == (key + "=") + value;
    assert line[..|key|] == key;
    assert line[|key| + 1..] == value;
    FirstEqualsAt(line, |key|);
  }

  /** A `key=value` line with a plain key and a trimmed value is already
      trimmed and is not a comment. */
  lemma LineTrimmed(key: string, value: string)
    requires PlainKey(key)
    requires value == [] || (!IsSpace(value[0]) && !IsSpace(value[|value| - 1]))
    ensures TrimSpace(key + "=" + value) == key + "=" + value
    ensures (key + "=" + value)[0] != '#'
  {
    var line := key + "=" + value;
    assert !IsSpace(line[|line| - 1]) by {
      if value == [] { assert line[|line| - 1] == '='; } else { assert line[|line| - 1] == value[|value| - 1]; }
    }
    assert !IsSpace(line[0]) && line[0] != '#' by {
      if key == [] { assert line[0] == '='; } else { assert line[0] == key[0]; }
    }
    TrimSpaceOfTrimmed(line);
  }

  /** Writing `key=value` with a plain key and a trimmed value and reading it
      back gives the key and the value without its surrounding quotes. */
  lemma {:induction false} LineRoundTrip(key: string, value: string)
    requires PlainKey(key)
    requires value == [] || (!IsSpace(value[0]) && !IsSpace(value[|value| - 1]))
    ensures ParseLine(key + "=" + value) == Some(Setting(key, Unquote(value)))
  {
    LineTrimmed(key, value);
    SplitAfterKey(key, value);
    TrimSpaceOfTrimmed(key);
    TrimSpaceOfTrimmed(value);
  }

  /** An unquoted trimmed value survives the round trip unchanged, '=' signs
      inside it included. */
  lemma {:induction false} PlainRoundTrip(key: string, value: string)
    requires PlainKey(key)
    requires value == [] || (!IsSpace(value[0]) && !IsSpace(value[|value| - 1]))
    requires !QuoteDelimited(value) || |value| < 2
    ensures ParseLine(key + "=" + value) == Some(Setting(key, value))
  {
    LineRoundTrip(key, value);
  }

  /** A value in a pair of quotes is already trimmed and loses exactly its
      two quotes. */
  lemma UnquoteQuoted(q: char, value: string)
    requires q == '"' || q == '\''
    ensures var quoted := [q] + value + [q];
      && (!IsSpace(quoted[0]) && !IsSpace(quoted[|quoted| - 1]))
      && Unquote(quoted) == value
  {
    var quoted := [q] + value + [q];
    assert quoted[0] == q && quoted[|quoted| - 1] == q;
    assert quoted[1..|quoted| - 1] == value;
  }

  /** A value in double or single quotes survives the round trip unchanged,
      spaces, quotes and '=' signs inside it included. */
  lemma {:induction false} QuotedRoundTrip(key: string, q: char, value: string)
    requires PlainKey(key)
    requires q == '"' || q == '\''
    ensures ParseLine(key + "=" + ([q] + value + [q])) == Some(Setting(key, value))
  {
    UnquoteQuoted(q, value);
    LineRoundTrip(key, [q] + value + [q]);
  }
}
