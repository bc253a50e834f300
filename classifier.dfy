/**
 * The dataset-backed fallback classifier: a table of domain categories
 * loaded from a two-column CSV text, and the categorisation of a domain by
 * internal-address ranges, exact entry and parent-domain entry.
 */
module Classifier {
  import opened Base

  // ---------------------------------------------------------------------
  // parseInt
  // ---------------------------------------------------------------------

  /** The longest prefix of `s` made of decimal digits (of hexadecimal
      digits when `hex`). */
  function LeadingDigits(s: string, hex: bool): (r: string)
    ensures |r| <= |s| && r == s[..|r|]
    ensures forall i :: 0 <= i < |r| ==> if hex then IsHexDigit(r[i]) else IsDigit(r[i])
    ensures |r| < |s| ==> !(if hex then IsHexDigit(s[|r|]) else IsDigit(s[|r|]))
  {
    if s != [] && (if hex then IsHexDigit(s[0]) else IsDigit(s[0])) then
      [s[0]] + LeadingDigits(s[1..], hex)
    else []
  }

  /** The digits after any sign: "0x"/"0X" switches to base 16, and the
      longest run of digits that follows is read; `None` is NaN. */
  function ParseUnsigned(u: string): (r: Option<int>)
    ensures r.Some? ==> r.value >= 0
  {
    if |u| >= 2 && u[0] == '0' && (u[1] == 'x' || u[1] == 'X') then
      var h := LeadingDigits(u[2..], true);
      if h == [] then None else Some(HexValue(h))
    else
      var d := LeadingDigits(u, false);
      if d == [] then None else Some(DecimalValue(d))
  }

  /** `parseInt(s)` without a radix: leading white space and one sign are
      skipped before the digits are read. */
  function ParseInt(s: string): (r: Option<int>)
    ensures TrimStart(s) == [] ==> r.None?
    ensures r.Some? && r.value < 0 ==> TrimStart(s) != [] && TrimStart(s)[0] == '-'
  {
    var t := TrimStart(s);
    if t != [] && t[0] == '-' then
      var n := ParseUnsigned(t[1..]);
      if n.None? then None else Some(-n.value)
    else if t != [] && t[0] == '+' then ParseUnsigned(t[1..])
    else ParseUnsigned(t)
  }

  /** Text that starts with a digit is read without trimming or sign. */
  lemma ParseIntOfDigitStart(s: string)
    requires s != [] && IsDigit(s[0])
    ensures ParseInt(s) == ParseUnsigned(s)
  {
    assert !IsJsWhitespace(s[0]);
    assert TrimStart(s) == s;
  }

  lemma {:induction false} LeadingDigitsOfDigits(s: string, rest: string, hex: bool)
    requires forall i :: 0 <= i < |s| ==> if hex then IsHexDigit(s[i]) else IsDigit(s[i])
    requires rest == [] || !(if hex then IsHexDigit(rest[0]) else IsDigit(rest[0]))
    ensures LeadingDigits(s + rest, hex) == s
  {
    if s != [] {
      assert (s + rest)[0] == s[0] && (s + rest)[1..] == s[1..] + rest;
      LeadingDigitsOfDigits(s[1..], rest, hex);
    } else {
      assert s + rest == rest;
    }
  }

  /** A decimal number followed by anything that is neither a digit nor an
      'x' reads as that number: `parseInt("16abc")` is 16. */
  lemma ParseIntReadsLeadingNumber(n: nat, rest: string)
    requires rest == [] || (!IsDigit(rest[0]) && rest[0] != 'x' && rest[0] != 'X')
    ensures ParseInt(NatToString(n) + rest) == Some(n)
  {
    var s := NatToString(n) + rest;
    assert s[0] == NatToString(n)[0];
    ParseIntOfDigitStart(s);
    assert !(|s| >= 2 && s[0] == '0' && (s[1] == 'x' || s[1] == 'X')) by {
      if |s| >= 2 && s[0] == '0' {
        assert NatToString(n) == "0";
        assert s[1] == rest[0];
      }
    }
    LeadingDigitsOfDigits(NatToString(n), rest, false);
    DecimalValueOfNatToString(n);
  }

  /** Text that starts with neither a digit, a sign nor white space is NaN. */
  lemma ParseIntNaN(s: string)
    requires s != [] && !IsDigit(s[0]) && !IsJsWhitespace(s[0]) && s[0] != '-' && s[0] != '+'
    ensures ParseInt(s).None?
  {
  }

  // ---------------------------------------------------------------------
  // Internal addresses
  // ---------------------------------------------------------------------

  /** The second field of a 172.* address parses (as `parseInt` does) to
      a number from 16 to 31. */
  function PrivateSecondField(ip: string): bool
    requires StartsWith(ip, "172.")
  {
    assert OccursAt(ip, ".", 3);
    var second := ParseInt(Split(ip, ".")[1]);
    second.Some? && 16 <= second.value <= 31
  }

  /** The rules of `isInternalIP` on the trimmed text: 10.*, 192.168.*,
      and the private part of 172.*. */
  function InternalAddress(ip: string): bool
  {
    if StartsWith(ip, "10.") then true
    else if StartsWith(ip, "192.168.") then true
    else if StartsWith(ip, "172.") then PrivateSecondField(ip)
    else false
  }

  /** `isInternalIP`. */
  function IsInternalIP(domain: string): (r: bool)
    ensures r ==> StartsWith(Trim(domain), "10.") || StartsWith(Trim(domain), "192.168.")
                  || StartsWith(Trim(domain), "172.")
  {
    InternalAddress(Trim(domain))
  }

  /** Text without white space at either end is its own trimmed form. */
  lemma TrimmedIsInternal(s: string)
    requires s != [] && !IsJsWhitespace(s[0]) && !IsJsWhitespace(s[|s| - 1])
    ensures IsInternalIP(s) == InternalAddress(s)
  {
    assert Trim(s) == s;
  }

  /** A 172.* address is internal exactly when its second field parses
      into 16..31. */
  lemma Internal172(ip: string)
    requires StartsWith(ip, "172.")
    ensures InternalAddress(ip) == PrivateSecondField(ip)
  {
    assert ip[..4] == "172.";
    assert !StartsWith(ip, "10.") by { assert ip[1] == '7'; }
    assert !StartsWith(ip, "192.168.") by { assert ip[1] == '7'; }
  }

  /** The second field of "172.<field>.<rest>". */
  lemma SecondField(field: string, rest: string)
    requires '.' !in field
    ensures |Split("172." + field + "." + rest, ".")| >= 2
    ensures Split("172." + field + "." + rest, ".")[1] == field
  {
    var ip := "172." + field + "." + rest;
    assert ip == "172" + ['.'] + (field + ['.'] + rest);
    SplitFirst("172", '.', field + ['.'] + rest);
    SplitFirst(field, '.', rest);
  }

  /** Which 172.x addresses are internal: exactly those whose second field
      is a number from 16 to 31. */
  lemma PrivateRange172(n: nat, rest: string)
    requires rest == [] || !IsJsWhitespace(rest[|rest| - 1])
    ensures IsInternalIP("172." + NatToString(n) + "." + rest) <==> 16 <= n <= 31
  {
    var digits := NatToString(n);
    var ip := "172." + digits + "." + rest;
    assert ip[|ip| - 1] == if rest == [] then '.' else rest[|rest| - 1];
    assert ip[0] == '1';
    TrimmedIsInternal(ip);
    assert ip[..4] == "172.";
    Internal172(ip);
    assert forall k :: 0 <= k < |digits| ==> IsDigit(digits[k]);
    assert '.' !in digits;
    SecondField(digits, rest);
    ParseIntReadsLeadingNumber(n, []);
    assert digits + [] == digits;
  }

  /** An address that does not start with '1' is never internal. */
  lemma NotInternal(ip: string)
    requires ip != [] && ip[0] != '1'
    ensures !InternalAddress(ip)
  {
  }

  /** `parseInt` reads a "0x" prefix as hexadecimal. */
  lemma ParseIntReadsHex(h: string)
    requires h != [] && forall i :: 0 <= i < |h| ==> IsHexDigit(h[i])
    ensures ParseInt("0x" + h) == Some(HexValue(h))
  {
    var s := "0x" + h;
    ParseIntOfDigitStart(s);
    assert s[2..] == h;
    LeadingDigitsOfDigits(h, [], true);
    assert h + [] == h;
  }

  /** The private-range test reads exactly the second field. */
  lemma SecondFieldDecides(field: string, rest: string)
    requires '.' !in field
    ensures StartsWith("172." + field + "." + rest, "172.")
    ensures PrivateSecondField("172." + field + "." + rest)
      <==> ParseInt(field).Some? && 16 <= ParseInt(field).value <= 31
  {
    assert ("172." + field + "." + rest)[..4] == "172.";
    SecondField(field, rest);
  }

  lemma HexFieldValue(h: string, rest: string)
    requires h != [] && forall i :: 0 <= i < |h| ==> IsHexDigit(h[i])
    ensures StartsWith("172." + ("0x" + h) + "." + rest, "172.")
    ensures PrivateSecondField("172." + ("0x" + h) + "." + rest) <==> 16 <= HexValue(h) <= 31
  {
    HexFieldHasNoDot(h);
    SecondFieldDecides("0x" + h, rest);
    ParseIntReadsHex(h);
  }

  lemma HexFieldHasNoDot(h: string)
    requires forall i :: 0 <= i < |h| ==> IsHexDigit(h[i])
    ensures '.' !in "0x" + h
  {
    assert forall i :: 0 <= i < |"0x" + h| ==> ("0x" + h)[i] != '.';
  }

  /** Because of that, "172.0x10.…" (0x10 is 16) is in the private range
      too: the second field is read in base 16. */
  lemma HexSecondField(h: string, rest: string)
    requires h != [] && forall i :: 0 <= i < |h| ==> IsHexDigit(h[i])
    ensures InternalAddress("172." + ("0x" + h) + "." + rest) <==> 16 <= HexValue(h) <= 31
  {
    HexFieldValue(h, rest);
    Internal172("172." + ("0x" + h) + "." + rest);
  }

  // ---------------------------------------------------------------------
  // The dataset
  // ---------------------------------------------------------------------

  /** The category map as `Object.keys` lists it: (domain, category)
      entries in first-insertion order. */
  type Table = seq<(string, string)>

  function Lookup(t: Table, domain: string): (r: Option<string>)
    ensures r.None? <==> forall i :: 0 <= i < |t| ==> t[i].0 != domain
    ensures r.Some? ==> exists i :: 0 <= i < |t| && t[i] == (domain, r.value)
  {
    if t == [] then None
    else if t[0].0 == domain then Some(t[0].1)
    else Lookup(t[1..], domain)
  }

  predicate DistinctKeys(t: Table)
  {
    forall i, j :: 0 <= i < j < |t| ==> t[i].0 != t[j].0
  }

  /** `categoryMap[domain] = category`: an existing key keeps its place. */
  function Put(t: Table, domain: string, category: string): (r: Table)
    ensures |r| == if Lookup(t, domain).Some? then |t| else |t| + 1
    ensures forall i :: 0 <= i < |t| ==> r[i].0 == t[i].0
  {
    if t == [] then [(domain, category)]
    else if t[0].0 == domain then [(domain, category)] + t[1..]
    else [t[0]] + Put(t[1..], domain, category)
  }

  lemma {:induction false} PutLookup(t: Table, domain: string, category: string, other: string)
    ensures Lookup(Put(t, domain, category), other)
      == if other == domain then Some(category) else Lookup(t, other)
  {
    if t != [] && t[0].0 != domain {
      PutLookup(t[1..], domain, category, other);
    }
  }

  lemma PutKeepsDistinct(t: Table, domain: string, category: string)
    requires DistinctKeys(t)
    ensures DistinctKeys(Put(t, domain, category))
  {
    var r := Put(t, domain, category);
    if |r| == |t| + 1 {
      assert Lookup(t, domain).None?;
      assert r[|t|].0 == domain by { PutLast(t, domain, category); }
    }
  }

  lemma {:induction false} PutLast(t: Table, domain: string, category: string)
    requires Lookup(t, domain).None?
    ensures Put(t, domain, category) == t + [(domain, category)]
  {
    if t != [] {
      PutLast(t[1..], domain, category);
    }
  }

  const Header := "dominio,categoria"

  /** The entry one CSV line contributes, if any: not empty, not the
      header, exactly two comma-separated fields, both non-empty once
      trimmed; the domain is lower-cased. */
  function Row(line: string): (r: Option<(string, string)>)
    ensures r.Some? ==> r.value.0 != "" && r.value.1 != "" && Lower(r.value.0) == r.value.0
  {
    if line == [] || Trim(Lower(line)) == Header then None
    else
      var parts := Split(line, ",");
      if |parts| != 2 then None
      else
        var domain := Lower(Trim(parts[0]));
        var category := Trim(parts[1]);
        LowerIdempotent(Trim(parts[0]));
        if domain == [] || category == [] then None else Some((domain, category))
  }

  function StripCR(line: string): string
  {
    if line != [] && line[|line| - 1] == '\r' then line[..|line| - 1] else line
  }

  /** `csv.split(/\r?\n/)`. A carriage return ending the last piece (a
      file without a final newline) is stripped too, which the regular
      expression would leave; `Row` trims every field, so no table entry
      depends on the difference. */
  function Lines(csv: string): (lines: seq<string>)
    ensures |lines| == |Split(csv, "\n")|
  {
    var parts := Split(csv, "\n");
    seq(|parts|, i requires 0 <= i < |parts| => StripCR(parts[i]))
  }

  /** The table after the lines, read in order. */
  function Loaded(lines: seq<string>): (r: Table)
    ensures |r| <= |lines|
  {
    if lines == [] then []
    else
      var t := Loaded(lines[..|lines| - 1]);
      match Row(lines[|lines| - 1])
      case None => t
      case Some((domain, category)) => Put(t, domain, category)
  }

  /** An independent reading of the same lines: the category of a domain
      is the one on the last line that names it. */
  function LastCategory(lines: seq<string>, domain: string): Option<string>
  {
    if lines == [] then None
    else
      var row := Row(lines[|lines| - 1]);
      if row.Some? && row.value.0 == domain then Some(row.value.1)
      else LastCategory(lines[..|lines| - 1], domain)
  }

  /** Later lines overwrite earlier ones: the loaded table agrees with
      `LastCategory` on every domain. */
  lemma {:induction false} LoadedKeepsLast(lines: seq<string>, domain: string)
    ensures Lookup(Loaded(lines), domain) == LastCategory(lines, domain)
  {
    if lines != [] {
      LoadedKeepsLast(lines[..|lines| - 1], domain);
      match Row(lines[|lines| - 1])
      case None =>
      case Some((d, c)) =>
        PutLookup(Loaded(lines[..|lines| - 1]), d, c, domain);
    }
  }

  /** Every key is listed once, is lower-case and non-empty, and every
      category is non-empty. */
  ghost predicate WellFormed(t: Table)
  {
    DistinctKeys(t) && forall i :: 0 <= i < |t| ==> GoodEntry(t[i])
  }

  ghost predicate GoodEntry(e: (string, string))
  {
    e.0 != "" && e.1 != "" && Lower(e.0) == e.0
  }

  lemma {:induction false} LoadedIsWellFormed(lines: seq<string>)
    ensures WellFormed(Loaded(lines))
  {
    if lines != [] {
      var t := Loaded(lines[..|lines| - 1]);
      LoadedIsWellFormed(lines[..|lines| - 1]);
      var row := Row(lines[|lines| - 1]);
      if row.Some? {
        assert Loaded(lines) == Put(t, row.value.0, row.value.1);
        PutKeepsWellFormed(t, row.value.0, row.value.1);
      }
    }
  }

  lemma PutKeepsWellFormed(t: Table, domain: string, category: string)
    requires WellFormed(t) && GoodEntry((domain, category))
    ensures WellFormed(Put(t, domain, category))
  {
    PutKeepsDistinct(t, domain, category);
    PutEntries(t, domain, category);
  }

  lemma {:induction false} PutEntries(t: Table, domain: string, category: string)
    ensures forall i :: 0 <= i < |Put(t, domain, category)| ==>
      Put(t, domain, category)[i] == (domain, category) || Put(t, domain, category)[i] in t
  {
    if t != [] && t[0].0 != domain {
      PutEntries(t[1..], domain, category);
      var r := Put(t, domain, category);
      forall i | 0 <= i < |r| ensures r[i] == (domain, category) || r[i] in t {
        if i > 0 {
          assert r[i] == Put(t[1..], domain, category)[i - 1];
        }
      }
    }
  }

  /** Loading the dataset file: a file that cannot be read leaves the table
      empty. */
  method LoadDataset(csv: Option<string>) returns (t: Table)
    ensures csv.None? ==> t == []
    ensures csv.Some? ==> t == Loaded(Lines(csv.value))
    ensures WellFormed(t)
    ensures csv.Some? ==> forall d :: Lookup(t, d) == LastCategory(Lines(csv.value), d)
  {
    t := [];
    if csv.None? {
      return;
    }
    var lines := Lines(csv.value);
    for i := 0 to |lines|
      invariant t == Loaded(lines[..i])
    {
      assert lines[..i + 1][..i] == lines[..i];
      var row := Row(lines[i]);
      if row.Some? {
        t := Put(t, row.value.0, row.value.1);
      }
    }
    assert lines[..|lines|] == lines;
    LoadedIsWellFormed(lines);
    forall d ensures Lookup(t, d) == LastCategory(lines, d) {
      LoadedKeepsLast(lines, d);
    }
  }

  // ---------------------------------------------------------------------
  // Categorisation
  // ---------------------------------------------------------------------

  const Other := "Outros"
  const Internal := "Interno"

  /** Lower-case, drop the first "www." wherever it occurs, trim. */
  function Normalize(domain: string): (r: string)
    ensures |r| <= |domain|
    ensures r == [] || (!IsJsWhitespace(r[0]) && !IsJsWhitespace(r[|r| - 1]))
  {
    Trim(ReplaceFirst(Lower(domain), "www.", ""))
  }

  /** No entry before position `i` is a parent domain of `domain`. */
  predicate NoParentBefore(t: Table, domain: string, i: int)
    requires 0 <= i <= |t|
  {
    forall j :: 0 <= j < i ==> !EndsWith(domain, "." + t[j].0)
  }

  /** `Object.keys(map).find(key => domain.endsWith('.' + key))`: the first
      entry, in map order, whose key is a parent domain. */
  function ParentEntry(t: Table, domain: string): (r: Option<(string, string)>)
    ensures r.Some? ==> r.value in t && EndsWith(domain, "." + r.value.0)
    ensures r.None? ==> NoParentBefore(t, domain, |t|)
    ensures r.Some? ==> exists i :: 0 <= i < |t| && t[i] == r.value && NoParentBefore(t, domain, i)
  {
    if t == [] then None
    else if EndsWith(domain, "." + t[0].0) then
      assert NoParentBefore(t, domain, 0);
      Some(t[0])
    else
      var rest := ParentEntry(t[1..], domain);
      assert rest.None? ==> NoParentBefore(t, domain, |t|) by {
        if rest.None? {
          forall j | 0 <= j < |t| ensures !EndsWith(domain, "." + t[j].0) {
            if j > 0 { assert t[j] == t[1..][j - 1]; }
          }
        }
      }
      assert rest.Some? ==> exists i :: 0 <= i < |t| && t[i] == rest.value && NoParentBefore(t, domain, i) by {
        if rest.Some? {
          var i :| 0 <= i < |t[1..]| && t[1..][i] == rest.value && NoParentBefore(t[1..], domain, i);
          assert t[i + 1] == rest.value;
          forall j | 0 <= j < i + 1 ensures !EndsWith(domain, "." + t[j].0) {
            if j > 0 { assert t[j] == t[1..][j - 1]; }
          }
          assert NoParentBefore(t, domain, i + 1);
        }
      }
      rest
  }

  /** The dataset rules: an exact entry with a non-empty category, else
      the first entry whose key is a parent domain (when that key is
      non-empty), else "Outros". */
  function DatasetCategory(t: Table, n: string): (r: string)
    ensures r == Other || exists i :: 0 <= i < |t| && r == t[i].1
  {
    var exact := Lookup(t, n);
    if exact.Some? && exact.value != "" then exact.value
    else match ParentEntry(t, n)
      case Some((key, category)) => if key != "" then category else Other
      case None => Other
  }

  /** `categorizar`. */
  function Categorize(t: Table, domain: string): (r: string)
    ensures domain == "" ==> r == Other
    ensures r == Other || r == Internal || exists i :: 0 <= i < |t| && r == t[i].1
  {
    if domain == "" then Other
    else
      var n := Normalize(domain);
      if IsInternalIP(n) then Internal else DatasetCategory(t, n)
  }

  /** Categorisation ignores letter case. */
  lemma CategorizeIgnoresCase(t: Table, domain: string)
    ensures Categorize(t, Lower(domain)) == Categorize(t, domain)
  {
    if domain == "" {
      assert Lower(domain) == "";
    } else {
      assert Lower(domain) != "" by { assert |Lower(domain)| == |domain|; }
      var n := Normalize(domain);
      NormalizeOfLower(domain);
      assert Normalize(Lower(domain)) == n;
      assert Categorize(t, Lower(domain)) == if IsInternalIP(n) then Internal else DatasetCategory(t, n);
    }
  }

  lemma NormalizeOfLower(domain: string)
    ensures Normalize(Lower(domain)) == Normalize(domain)
  {
    LowerIdempotent(domain);
  }

  /** The order of the rules: internal addresses first, then an exact
      entry, then the first parent-domain entry, else "Outros". */
  lemma CategorizeRules(t: Table, domain: string)
    requires domain != "" && WellFormed(t)
    ensures var n := Normalize(domain);
      Categorize(t, domain)
        == if IsInternalIP(n) then Internal
           else if Lookup(t, n).Some? then Lookup(t, n).value
           else if ParentEntry(t, n).Some? then ParentEntry(t, n).value.1
           else Other
  {
    var n := Normalize(domain);
    var exact := Lookup(t, n);
    if exact.Some? {
      var i :| 0 <= i < |t| && t[i] == (n, exact.value);
    }
    var parent := ParentEntry(t, n);
    if parent.Some? {
      var i :| 0 <= i < |t| && t[i] == parent.value;
    }
  }

  /** Text with no upper-case ASCII letter is its own lower case. */
  lemma LowerOfLowercase(s: string)
    requires forall i :: 0 <= i < |s| ==> !('A' <= s[i] <= 'Z')
    ensures Lower(s) == s
  {
  }

  /** Normalisation leaves a lower-case, trimmed name without "www." alone. */
  lemma NormalizeKeeps(d: string)
    requires Lower(d) == d && 'w' !in d
    requires d != [] && !IsJsWhitespace(d[0]) && !IsJsWhitespace(d[|d| - 1])
    ensures Normalize(d) == d
  {
    FindNone(d, "www.");
    assert Trim(d) == d;
  }

  /** A leading "www." is dropped. */
  lemma NormalizeDropsWww(rest: string)
    requires Lower(rest) == rest
    requires rest != [] && !IsJsWhitespace(rest[0]) && !IsJsWhitespace(rest[|rest| - 1])
    ensures Normalize("www." + rest) == rest
  {
    var d := "www." + rest;
    assert Lower(d) == d by {
      forall i | 0 <= i < |d| ensures Lower(d)[i] == d[i] {
        if i >= 4 {
          assert d[i] == rest[i - 4] && Lower(rest)[i - 4] == LowerChar(rest[i - 4]);
        }
      }
    }
    assert OccursAt(d, "www.", 0) by { assert d[..4] == "www."; }
    assert Find(d, "www.", 0) == Some(0);
    assert ReplaceFirst(d, "www.", "") == rest by { assert d[4..] == rest; }
    assert Trim(rest) == rest;
  }

  /** The shape of a name normalisation leaves alone. */
  predicate PlainName(d: string)
  {
    d != [] && 'w' !in d && !IsJsWhitespace(d[0]) && !IsJsWhitespace(d[|d| - 1])
    && forall i :: 0 <= i < |d| ==> !('A' <= d[i] <= 'Z')
  }

  /** A plain name is categorised as it stands. */
  lemma CategorizePlainName(t: Table, d: string)
    requires PlainName(d)
    ensures Categorize(t, d) == if InternalAddress(d) then Internal else DatasetCategory(t, d)
  {
    LowerOfLowercase(d);
    NormalizeKeeps(d);
    TrimmedIsInternal(d);
  }

  /** A plain name behind "www." is categorised as the name itself. */
  lemma CategorizeWwwName(t: Table, d: string)
    requires PlainName(d)
    ensures Categorize(t, "www." + d) == if InternalAddress(d) then Internal else DatasetCategory(t, d)
  {
    LowerOfLowercase(d);
    NormalizeDropsWww(d);
    TrimmedIsInternal(d);
  }

  const YouTube: Table := [("youtube.com", "Streaming")]

  /** The dataset rules on a one-entry table: the domain itself and its
      subdomains match, a longer name that merely ends in the same letters
      does not. */
  lemma DatasetExamples()
    ensures DatasetCategory(YouTube, "youtube.com") == "Streaming"
    ensures DatasetCategory(YouTube, "music.youtube.com") == "Streaming"
    ensures DatasetCategory(YouTube, "notyoutube.com") == Other
  {
    assert EndsWith("music.youtube.com", ".youtube.com");
    assert "notyoutube.com"[2] == 't';
  }

  /** Addresses in 10.0.0.0/8 and 192.168.0.0/16 are internal. */
  lemma InternalExamples()
    ensures InternalAddress("192.168.0.10") && InternalAddress("10.0.0.5")
  {
    assert "192.168.0.10"[..8] == "192.168.";
    assert "10.0.0.5"[..3] == "10.";
  }
}
