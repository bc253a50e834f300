/**
 * The Redis `INFO` report as the monitor reads it: CRLF-separated lines,
 * `# Section` headers and `key:value` pairs, each value coerced to an
 * integer, a decimal number or left as text.
 */
module RedisInfo {
  import opened Base

  /** A status value: what `parseValue` makes of the text after the colon. */
  datatype Value = IntValue(i: int) | FloatValue(r: real) | TextValue(s: string)

  type Section = map<string, Value>
  type Sections = map<string, Section>

  /** `/^\d+$/`: one or more decimal digits and nothing else. */
  predicate IsIntegerText(s: string)
  {
    |s| > 0 && AllDigits(s)
  }

  /** `/^\d+\.\d+$/`: digits, one dot, digits. */
  predicate IsDecimalText(s: string)
  {
    match Find(s, ".", 0)
    case None => false
    case Some(i) => 0 < i && i + 1 < |s| && AllDigits(s[..i]) && AllDigits(s[i + 1..])
  }

  function Pow10(n: nat): (p: nat)
    ensures p >= 1
  {
    if n == 0 then 1 else 10 * Pow10(n - 1)
  }

  /** The value of `digits.digits`. */
  function DecimalTextValue(s: string): real
    requires IsDecimalText(s)
  {
    var i := Find(s, ".", 0).value;
    DecimalValue(s[..i]) as real + DecimalValue(s[i + 1..]) as real / Pow10(|s| - i - 1) as real
  }

  /** `parseValue`: integers and decimal fractions become numbers, anything
      else (signs, exponents, the empty string, letters) stays text. */
  function ParseValue(s: string): (v: Value)
    ensures v.IntValue? <==> IsIntegerText(s)
    ensures v.FloatValue? <==> IsDecimalText(s)
    ensures v.TextValue? <==> !IsIntegerText(s) && !IsDecimalText(s)
    ensures v.TextValue? ==> v.s == s
    ensures v.IntValue? ==> v.i >= 0
    ensures v.FloatValue? ==> v.r >= 0.0
  {
    if IsIntegerText(s) then IntValue(DecimalValue(s))
    else if IsDecimalText(s) then FloatValue(DecimalTextValue(s))
    else TextValue(s)
  }

  /** A rendered non-negative integer parses back to itself. */
  lemma ParseValueOfInteger(n: nat)
    ensures ParseValue(NatToString(n)) == IntValue(n)
  {
    DecimalValueOfNatToString(n);
  }

  /** `a.b` parses to `a + b / 10^|b|`. */
  lemma ParseValueOfDecimal(a: nat, frac: string)
    requires IsIntegerText(frac)
    ensures ParseValue(NatToString(a) + "." + frac)
         == FloatValue(a as real + DecimalValue(frac) as real / Pow10(|frac|) as real)
  {
    var digits := NatToString(a);
    var s := digits + "." + frac;
    DigitsHaveNoDot(digits);
    FindFirst(digits, ".", frac);
    assert s[..|digits|] == digits;
    assert s[|digits| + 1..] == frac;
    assert !IsIntegerText(s) by {
      assert !IsDigit(s[|digits|]);
    }
    DecimalValueOfNatToString(a);
  }

  lemma DigitsHaveNoDot(s: string)
    requires AllDigits(s)
    ensures !Contains(s, ".")
  {
    forall j | 0 <= j ensures !OccursAt(s, ".", j) {
      if j + 1 <= |s| {
        assert s[j..j + 1][0] == s[j];
      }
    }
  }

  /** The first occurrence of a one-character separator in `a + sep + b`,
      when `a` has none, is right after `a`. */
  lemma FindFirst(a: string, sep: string, b: string)
    requires |sep| == 1 && !Contains(a, sep)
    ensures Find(a + sep + b, sep, 0) == Some(|a|)
  {
    var s := a + sep + b;
    assert s[|a|..|a| + 1] == sep;
    assert OccursAt(s, sep, |a|);
    forall j | 0 <= j < |a| ensures !OccursAt(s, sep, j) {
      assert !OccursAt(a, sep, j);
      assert s[j..j + 1] == a[j..j + 1];
    }
  }

  /** Negative numbers and the empty string are not numbers to `parseValue`. */
  lemma SignedAndEmptyStayText(digits: string)
    ensures ParseValue("") == TextValue("")
    ensures ParseValue("-" + digits) == TextValue("-" + digits)
  {
    var s := "-" + digits;
    assert !IsDigit(s[0]);
  }

  // ---------------------------------------------------------------------
  // Lines and sections
  // ---------------------------------------------------------------------

  /** The characters the regular-expression `.` does not match. */
  predicate IsLineTerminator(c: char)
  {
    c == '\n' || c == '\r' || c == '\U{2028}' || c == '\U{2029}'
  }

  /** The end of the run of non-terminator characters starting at `j`. */
  function RunEnd(s: string, j: nat): (e: nat)
    requires j <= |s|
    ensures j <= e <= |s|
    ensures forall k :: j <= k < e ==> !IsLineTerminator(s[k])
    ensures e < |s| ==> IsLineTerminator(s[e])
    decreases |s| - j
  {
    if j == |s| || IsLineTerminator(s[j]) then j else RunEnd(s, j + 1)
  }

  /** `line.match(/# (.+)/)[1]`: the leftmost `# ` followed by at least one
      character, and the greedy capture after it. */
  function HeaderMatch(line: string, i: nat): (r: Option<string>)
    ensures r.Some? ==> |r.value| > 0
    decreases |line| - i
  {
    if i + 2 >= |line| then None
    else if line[i] == '#' && line[i + 1] == ' ' && !IsLineTerminator(line[i + 2])
    then Some(line[i + 2..RunEnd(line, i + 2)])
    else HeaderMatch(line, i + 1)
  }

  /** The eight section dictionaries `parseRedisInfo` creates up front. */
  const KnownSections: set<string> :=
    {"server", "clients", "memory", "persistence", "stats", "replication", "cpu", "keyspace"}

  function InitialSections(): (m: Sections)
    ensures m.Keys == KnownSections
    ensures forall n :: n in m ==> m[n] == map[]
  {
    map n | n in KnownSections :: map[]
  }

  datatype ParseState = ParseState(sections: Sections, current: string)

  const Start := ParseState(InitialSections(), "server")

  predicate IsHeaderLine(line: string) { |line| > 0 && line[0] == '#' }

  /** One pass of the loop body. `None` is the TypeError thrown when a pair
      targets a section that was never created. */
  function Step(st: ParseState, line: string): (r: Option<ParseState>)
    ensures r.Some? ==> r.value.sections.Keys == st.sections.Keys
    ensures !IsHeaderLine(line) && !Contains(line, ":") ==> r == Some(st)
    ensures r.None? ==> st.current !in st.sections
  {
    if IsHeaderLine(line) then
      match HeaderMatch(line, 0)
      case None => Some(st)
      case Some(name) => Some(st.(current := Lower(name)))
    else if Contains(line, ":") then
      var parts := Split(line, ":");
      var key, value := parts[0], parts[1];
      if key == "" then Some(st)
      else if st.current in st.sections then
        Some(st.(sections := st.sections[st.current := st.sections[st.current][key := ParseValue(value)]]))
      else None
    else Some(st)
  }

  /** The state after the loop has run over `lines`. */
  function ParseLines(lines: seq<string>): (r: Option<ParseState>)
    ensures r.Some? ==> r.value.sections.Keys == KnownSections
  {
    if lines == [] then Some(Start)
    else match ParseLines(lines[..|lines| - 1])
      case None => None
      case Some(st) => Step(st, lines[|lines| - 1])
  }

  /** What `parseRedisInfo` returns, `None` when it throws. */
  function InfoSections(info: string): (r: Option<Sections>)
    ensures r.Some? ==> r.value.Keys == KnownSections
    ensures info == "" ==> r == Some(InitialSections())
  {
    assert info == "" ==> Split(info, "\r\n") == [""] && [""][..0] == [] && !Contains("", ":");
    match ParseLines(Split(info, "\r\n"))
    case None => None
    case Some(st) => Some(st.sections)
  }

  /** `parseRedisInfo`: fills the section dictionaries line by line. */
  method ParseRedisInfo(info: string) returns (result: Option<Sections>)
    ensures result == InfoSections(info)
    ensures result.Some? ==> KnownSections <= result.value.Keys
  {
    var lines := Split(info, "\r\n");
    var st := Start;
    var i := 0;
    while i < |lines|
      invariant 0 <= i <= |lines|
      invariant ParseLines(lines[..i]) == Some(st)
      invariant KnownSections <= st.sections.Keys
    {
      assert lines[..i + 1][..i] == lines[..i];
      var line := lines[i];
      if IsHeaderLine(line) {
        var m := HeaderMatch(line, 0);
        if m.Some? {
          st := st.(current := Lower(m.value));
        }
      } else if Contains(line, ":") {
        var parts := Split(line, ":");
        var key, value := parts[0], parts[1];
        if key != "" {
          if st.current !in st.sections {
            assert ParseLines(lines[..i + 1]) == None;
            FailureIsFinal(lines[..i + 1], lines[i + 1..]);
            assert lines[..i + 1] + lines[i + 1..] == lines;
            return None;
          }
          st := st.(sections := st.sections[st.current := st.sections[st.current][key := ParseValue(value)]]);
        }
      }
      i := i + 1;
    }
    assert lines[..i] == lines;
    return Some(st.sections);
  }

  // ---------------------------------------------------------------------
  // Properties of the parse
  // ---------------------------------------------------------------------

  /** A failed parse stays failed whatever follows. */
  lemma {:induction false} FailureIsFinal(lines: seq<string>, more: seq<string>)
    requires ParseLines(lines).None?
    ensures ParseLines(lines + more).None?
    decreases |more|
  {
    if more != [] {
      var all := lines + more;
      assert all[..|all| - 1] == lines + more[..|more| - 1];
      FailureIsFinal(lines, more[..|more| - 1]);
    } else {
      assert lines + more == lines;
    }
  }

  /** A line that is neither a header nor contains `:` is ignored. */
  predicate Ignorable(line: string)
  {
    !IsHeaderLine(line) && !Contains(line, ":")
  }

  function WithoutIgnorable(lines: seq<string>): seq<string>
  {
    if lines == [] then []
    else var last := lines[|lines| - 1];
      WithoutIgnorable(lines[..|lines| - 1]) + (if Ignorable(last) then [] else [last])
  }

  /** Dropping every line without a colon (and not a header) changes nothing. */
  lemma {:induction false} IgnorableLinesDoNotMatter(lines: seq<string>)
    ensures ParseLines(WithoutIgnorable(lines)) == ParseLines(lines)
  {
    if lines != [] {
      var init, last := lines[..|lines| - 1], lines[|lines| - 1];
      IgnorableLinesDoNotMatter(init);
      if !Ignorable(last) {
        var w := WithoutIgnorable(init) + [last];
        assert w[..|w| - 1] == WithoutIgnorable(init);
      } else {
        assert WithoutIgnorable(init) + [] == WithoutIgnorable(init);
      }
    }
  }

  /** `# Name` switches the current section to the lower-cased name. */
  lemma HeaderSwitchesSection(st: ParseState, name: string)
    requires |name| > 0
    requires forall k :: 0 <= k < |name| ==> !IsLineTerminator(name[k])
    ensures Step(st, "# " + name) == Some(st.(current := Lower(name)))
  {
    var line := "# " + name;
    assert line[0] == '#' && line[1] == ' ' && line[2] == name[0];
    assert IsHeaderLine(line);
    assert line[2..] == name;
    forall k | 2 <= k < |line| ensures !IsLineTerminator(line[k]) {
      assert line[k] == name[k - 2];
    }
    RunEndOfRun(line, 2);
    assert line[2..RunEnd(line, 2)] == name;
    assert HeaderMatch(line, 0) == Some(name);
  }

  lemma {:induction false} RunEndOfRun(s: string, j: nat)
    requires j <= |s|
    requires forall k :: j <= k < |s| ==> !IsLineTerminator(s[k])
    ensures RunEnd(s, j) == |s|
    decreases |s| - j
  {
    if j < |s| {
      RunEndOfRun(s, j + 1);
    }
  }

  /** For `key:value:rest`, the stored value is only the text between the
      first and the second colon, filed under the current section. */
  lemma PairLine(st: ParseState, key: string, value: string, rest: string)
    requires key != [] && key[0] != '#'
    requires !Contains(key, ":") && !Contains(value, ":")
    requires rest == [] || rest[0] == ':'
    requires st.current in st.sections
    ensures Step(st, key + ":" + value + rest) ==
      Some(st.(sections := st.sections[st.current := st.sections[st.current][key := ParseValue(value)]]))
  {
    var line := key + ":" + value + rest;
    assert line == key + ":" + (value + rest);
    FindFirst(key, ":", value + rest);
    assert !IsHeaderLine(line) by { assert line[0] == key[0]; }
    assert line[..|key|] == key;
    assert line[|key| + 1..] == value + rest;
    assert Split(line, ":") == [key] + Split(value + rest, ":");
    ValuePart(value, rest);
  }

  /** The first field of `value + rest` split on colons is `value` when
      `rest` is empty or starts with a colon. */
  lemma ValuePart(value: string, rest: string)
    requires !Contains(value, ":")
    requires rest == [] || rest[0] == ':'
    ensures Split(value + rest, ":")[0] == value
  {
    var s := value + rest;
    if rest == [] {
      assert s == value;
    } else {
      assert rest == ":" + rest[1..];
      assert s == value + ":" + rest[1..];
      FindFirst(value, ":", rest[1..]);
      assert s[..|value|] == value;
    }
  }

  /** A pair under a header that is not one of the eight pre-created
      sections makes the parse throw. */
  lemma UnknownSectionFails(st: ParseState, key: string, value: string)
    requires key != [] && key[0] != '#' && !Contains(key, ":")
    requires st.current !in st.sections
    ensures Step(st, key + ":" + value) == None
  {
    FindFirst(key, ":", value);
    var line := key + ":" + value;
    assert !IsHeaderLine(line) by { assert line[0] == key[0]; }
    assert Split(line, ":")[0] == line[..|key|] == key;
  }

  /** Lines before any header are filed under `server`, and such a report
      never makes the parse throw. */
  lemma {:induction false} HeaderlessReportGoesToServer(lines: seq<string>)
    requires forall i :: 0 <= i < |lines| ==> !IsHeaderLine(lines[i])
    ensures ParseLines(lines).Some?
    ensures ParseLines(lines).value.current == "server"
    ensures ParseLines(lines).value.sections.Keys == KnownSections
    ensures forall n :: n in KnownSections && n != "server" ==> ParseLines(lines).value.sections[n] == map[]
  {
    if lines != [] {
      HeaderlessReportGoesToServer(lines[..|lines| - 1]);
    }
  }

  /** A header naming a section that was never created, followed by a
      pair, makes the parse throw. */
  lemma HeaderThenPairFails(name: string, key: string, value: string)
    requires |name| > 0 && forall k :: 0 <= k < |name| ==> !IsLineTerminator(name[k])
    requires Lower(name) !in KnownSections
    requires key != [] && key[0] != '#' && !Contains(key, ":")
    ensures ParseLines(["# " + name, key + ":" + value]).None?
  {
    var lines := ["# " + name, key + ":" + value];
    assert lines[..1] == [lines[0]];
    assert lines[..1][..0] == [];
    HeaderSwitchesSection(Start, name);
    assert ParseLines(lines[..1]) == Some(Start.(current := Lower(name)));
    UnknownSectionFails(Start.(current := Lower(name)), key, value);
  }

  /** "Cluster" is a header name whose section was never created. */
  lemma ClusterIsUnknown()
    ensures forall k :: 0 <= k < |"Cluster"| ==> !IsLineTerminator("Cluster"[k])
    ensures Lower("Cluster") == "cluster" && "cluster" !in KnownSections
  {
    assert Lower("Cluster")[0] == 'c';
    assert "cluster"[2] != "clients"[2] && "cluster"[1] != "cpu"[1];
  }

  /** A report from a Redis server that has a `# Cluster` section (every
      server since 3.0 prints `cluster_enabled:0` there) makes the parse throw. */
  lemma ClusterSectionFails()
    ensures ParseLines(["# " + "Cluster", "cluster_enabled" + ":" + "0"]).None?
  {
    ClusterIsUnknown();
    FindNone("cluster_enabled", ":");
    HeaderThenPairFails("Cluster", "cluster_enabled", "0");
  }
}
