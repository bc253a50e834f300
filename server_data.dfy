/**
 * The data handling inside the dashboard server's route handlers: lists of
 * identifiers are queried in slices of ten, the dashboard's category list,
 * the student-name join on logs, and the per-student activity summary with
 * its ordering. Database answers are sequences handed in by the caller.
 */
module ServerData {
  import opened Base

  // ---------------------------------------------------------------------
  // Slices of ten
  // ---------------------------------------------------------------------

  /** The largest list the database's `in` filter accepts. */
  const ChunkSize := 10

  function Flatten<T>(chunks: seq<seq<T>>): seq<T>
  {
    if chunks == [] then [] else Flatten(chunks[..|chunks| - 1]) + chunks[|chunks| - 1]
  }

  lemma FlattenAppend<T>(chunks: seq<seq<T>>, c: seq<T>)
    ensures Flatten(chunks + [c]) == Flatten(chunks) + c
  {
    assert (chunks + [c])[..|chunks|] == chunks;
  }

  /** `ids.slice(i, i + 10)` for `i` = 0, 10, 20, … while `i < ids.length`. */
  function ChunksOf<T>(ids: seq<T>): (chunks: seq<seq<T>>)
    ensures chunks == [] <==> ids == []
    ensures |chunks| <= |ids|
    decreases |ids|
  {
    if ids == [] then []
    else if |ids| <= ChunkSize then [ids]
    else [ids[..ChunkSize]] + ChunksOf(ids[ChunkSize..])
  }

  /** The slices are consecutive: put together they give the list back;
      each holds one to ten identifiers, and all but the last exactly ten. */
  lemma {:induction false} ChunksCoverList<T>(ids: seq<T>)
    ensures Flatten(ChunksOf(ids)) == ids
    ensures forall k :: 0 <= k < |ChunksOf(ids)| ==> 1 <= |ChunksOf(ids)[k]| <= ChunkSize
    ensures forall k :: 0 <= k < |ChunksOf(ids)| - 1 ==> |ChunksOf(ids)[k]| == ChunkSize
    ensures |ChunksOf(ids)| == (|ids| + ChunkSize - 1) / ChunkSize
    decreases |ids|
  {
    if |ids| > ChunkSize {
      var rest := ids[ChunkSize..];
      ChunksCoverList(rest);
      FlattenPrepend(ids[..ChunkSize], ChunksOf(rest));
      assert ids == ids[..ChunkSize] + rest;
    } else if ids != [] {
      assert Flatten([ids]) == Flatten([]) + ids;
    }
  }

  lemma {:induction false} FlattenPrepend<T>(c: seq<T>, chunks: seq<seq<T>>)
    ensures Flatten([c] + chunks) == c + Flatten(chunks)
    decreases |chunks|
  {
    if chunks != [] {
      var init := chunks[..|chunks| - 1];
      FlattenPrepend(c, init);
      assert ([c] + chunks)[..|chunks|] == [c] + init;
    }
  }

  /** A slice starting at `i`, clamped like `slice`. */
  function SliceAt<T>(ids: seq<T>, i: nat): seq<T>
    requires i <= |ids|
  {
    ids[i..if i + ChunkSize <= |ids| then i + ChunkSize else |ids|]
  }

  lemma {:induction false} ChunksFrom<T>(ids: seq<T>, i: nat)
    requires i < |ids|
    ensures ChunksOf(ids[i..]) == [SliceAt(ids, i)] + ChunksOf(ids[if i + ChunkSize <= |ids| then i + ChunkSize else |ids|..])
  {
    var rest := ids[i..];
    if |rest| > ChunkSize {
      assert rest[..ChunkSize] == SliceAt(ids, i);
      assert rest[ChunkSize..] == ids[i + ChunkSize..];
    } else {
      assert rest == SliceAt(ids, i);
      assert ids[if i + ChunkSize <= |ids| then i + ChunkSize else |ids|..] == [];
    }
  }

  /** The chunked query loop: one query per slice, the answers appended in
      slice order. */
  method QueryInChunks<K, R>(ids: seq<K>, query: seq<K> -> seq<R>) returns (results: seq<R>)
    ensures results == Flatten(Answers(ChunksOf(ids), query))
  {
    results := [];
    var i := 0;
    assert ids[0..] == ids;
    while i < |ids|
      invariant 0 <= i <= |ids|
      invariant results + AnswersFrom(ids, i, query) == AnswersFrom(ids, 0, query)
      decreases |ids| - i
    {
      var chunk := SliceAt(ids, i);
      var next := if i + ChunkSize <= |ids| then i + ChunkSize else |ids|;
      QueryStep(ids, i, query);
      results := results + query(chunk);
      i := next;
    }
    AnswersFromEnd(ids, query);
  }

  /** The answers to the slices from position `i` on, put together. */
  ghost function AnswersFrom<K, R>(ids: seq<K>, i: nat, query: seq<K> -> seq<R>): seq<R>
    requires i <= |ids|
  {
    Flatten(Answers(ChunksOf(ids[i..]), query))
  }

  lemma AnswersFromEnd<K, R>(ids: seq<K>, query: seq<K> -> seq<R>)
    ensures AnswersFrom(ids, |ids|, query) == []
    ensures AnswersFrom(ids, 0, query) == Flatten(Answers(ChunksOf(ids), query))
  {
    assert ids[|ids|..] == [];
    assert ids[0..] == ids;
  }

  /** The answers from position `i` on are the answer to the slice at `i`
      followed by the answers from the next slice on. */
  lemma QueryStep<K, R>(ids: seq<K>, i: nat, query: seq<K> -> seq<R>)
    requires i < |ids|
    ensures AnswersFrom(ids, i, query)
      == query(SliceAt(ids, i)) + AnswersFrom(ids, if i + ChunkSize <= |ids| then i + ChunkSize else |ids|, query)
  {
    var next := if i + ChunkSize <= |ids| then i + ChunkSize else |ids|;
    ChunksFrom(ids, i);
    AnswersPrepend(SliceAt(ids, i), ChunksOf(ids[next..]), query);
    FlattenPrepend(query(SliceAt(ids, i)), Answers(ChunksOf(ids[next..]), query));
  }

  /** The answer to each slice's query, slice by slice. */
  function Answers<K, R>(chunks: seq<seq<K>>, query: seq<K> -> seq<R>): (r: seq<seq<R>>)
    ensures |r| == |chunks|
    ensures forall k :: 0 <= k < |chunks| ==> r[k] == query(chunks[k])
  {
    if chunks == [] then [] else Answers(chunks[..|chunks| - 1], query) + [query(chunks[|chunks| - 1])]
  }

  lemma AnswersPrepend<K, R>(c: seq<K>, chunks: seq<seq<K>>, query: seq<K> -> seq<R>)
    ensures Answers([c] + chunks, query) == [query(c)] + Answers(chunks, query)
  {
  }

  /** Chunking is invisible to a query whose answer for a concatenation is
      the concatenation of the answers (a filter on the identifiers, say):
      the slices together answer exactly what one query on the whole list
      would. */
  lemma {:induction false} ChunkingIsTransparent<K, R>(ids: seq<K>, query: seq<K> -> seq<R>)
    requires query([]) == []
    requires forall a: seq<K>, b: seq<K> :: query(a + b) == query(a) + query(b)
    ensures Flatten(Answers(ChunksOf(ids), query)) == query(ids)
    decreases |ids|
  {
    if |ids| > ChunkSize {
      var head, rest := ids[..ChunkSize], ids[ChunkSize..];
      assert ChunksOf(ids) == [head] + ChunksOf(rest);
      ChunkingIsTransparent(rest, query);
      AnswersPrepend(head, ChunksOf(rest), query);
      FlattenPrepend(query(head), Answers(ChunksOf(rest), query));
      assert ids == head + rest;
      assert query(ids) == query(head) + query(rest);
    } else if ids != [] {
      assert ChunksOf(ids) == [ids];
      assert Flatten([query(ids)]) == Flatten([]) + query(ids);
    }
  }

  // ---------------------------------------------------------------------
  // Students, identifiers and names
  // ---------------------------------------------------------------------

  /** A student document; an empty `cpf` or `pcId` is a missing field. */
  datatype Student = Student(id: string, cpf: string, pcId: string, fullName: Option<string>)

  /** The identifiers a student's logs may carry, CPF first. */
  function IdentifiersOf(s: Student): seq<string>
  {
    (if s.cpf != "" then [s.cpf] else []) + (if s.pcId != "" then [s.pcId] else [])
  }

  function Identifiers(students: seq<Student>): seq<string>
  {
    if students == [] then []
    else Identifiers(students[..|students| - 1]) + IdentifiersOf(students[|students| - 1])
  }

  /** The name map entry for an identifier: the full name of the last
      student document that carries it. */
  function NameEntry(students: seq<Student>, key: string): Option<Option<string>>
  {
    if students == [] then None
    else if key in IdentifiersOf(students[|students| - 1]) then Some(students[|students| - 1].fullName)
    else NameEntry(students[..|students| - 1], key)
  }

  lemma {:induction false} IdentifiersHaveNames(students: seq<Student>, key: string)
    ensures key in Identifiers(students) <==> NameEntry(students, key).Some?
  {
    if students != [] {
      IdentifiersHaveNames(students[..|students| - 1], key);
    }
  }

  /** The identifier loop: every non-empty CPF and PC id is pushed, and the
      name map points each one at the student's full name, a later
      document overwriting an earlier one. */
  method CollectIdentifiers(students: seq<Student>) returns (ids: seq<string>, names: map<string, Option<string>>)
    ensures ids == Identifiers(students)
    ensures forall k :: k in names <==> k in ids
    ensures forall k :: k in names ==> NameEntry(students, k) == Some(names[k])
    ensures forall k :: 0 <= k < |ids| ==> ids[k] != ""
  {
    ids := [];
    names := map[];
    for i := 0 to |students|
      invariant ids == Identifiers(students[..i])
      invariant forall k :: k in names <==> k in ids
      invariant forall k :: k in names ==> NameEntry(students[..i], k) == Some(names[k])
      invariant forall k :: 0 <= k < |ids| ==> ids[k] != ""
    {
      var s := students[i];
      assert students[..i + 1][..i] == students[..i];
      if s.cpf != "" {
        ids := ids + [s.cpf];
        names := names[s.cpf := s.fullName];
      }
      if s.pcId != "" {
        ids := ids + [s.pcId];
        names := names[s.pcId := s.fullName];
      }
    }
    assert students[..|students|] == students;
  }

  /** A log entry as the summary and the join read it; `None` is a missing
      field. */
  datatype Log = Log(id: string, alunoId: string, categoria: Option<string>, duration: Option<int>, timestamp: int)

  /** `studentMap[alunoId] || null`: an unknown identifier, a missing name
      and an empty name all give `null`. */
  function StudentName(names: map<string, Option<string>>, alunoId: string): (r: Option<string>)
    ensures r.Some? <==> alunoId in names && names[alunoId].Some? && names[alunoId].value != ""
    ensures r.Some? ==> r == names[alunoId]
  {
    if alunoId in names && names[alunoId].Some? && names[alunoId].value != "" then names[alunoId] else None
  }

  datatype NamedLog = NamedLog(log: Log, studentName: Option<string>)

  /** `logs.forEach(log => log.student_name = …)`. */
  method AttachNames(logs: seq<Log>, names: map<string, Option<string>>) returns (named: seq<NamedLog>)
    ensures |named| == |logs|
    ensures forall k :: 0 <= k < |logs| ==>
      named[k].log == logs[k] && named[k].studentName == StudentName(names, logs[k].alunoId)
  {
    named := [];
    for i := 0 to |logs|
      invariant |named| == i
      invariant forall k :: 0 <= k < i ==>
        named[k].log == logs[k] && named[k].studentName == StudentName(names, logs[k].alunoId)
    {
      named := named + [NamedLog(logs[i], StudentName(names, logs[i].alunoId))];
    }
  }

  /** A log whose identifier belongs to a named student gets that name. */
  lemma JoinFindsName(students: seq<Student>, names: map<string, Option<string>>, alunoId: string, name: string)
    requires forall k :: k in names <==> k in Identifiers(students)
    requires forall k :: k in names ==> NameEntry(students, k) == Some(names[k])
    requires NameEntry(students, alunoId) == Some(Some(name)) && name != ""
    ensures StudentName(names, alunoId) == Some(name)
  {
    IdentifiersHaveNames(students, alunoId);
  }

  // ---------------------------------------------------------------------
  // The dashboard's category list
  // ---------------------------------------------------------------------

  /** String order as `sort()` compares: lexicographic by character. */
  predicate Below(a: string, b: string)
  {
    if a == [] then b != []
    else if b == [] then false
    else if a[0] != b[0] then a[0] < b[0]
    else Below(a[1..], b[1..])
  }

  lemma {:induction false} BelowIrreflexive(a: string)
    ensures !Below(a, a)
  {
    if a != [] {
      BelowIrreflexive(a[1..]);
    }
  }

  lemma {:induction false} BelowTotal(a: string, b: string)
    ensures a == b || Below(a, b) || Below(b, a)
  {
    if a != [] && b != [] && a[0] == b[0] {
      BelowTotal(a[1..], b[1..]);
      if a[1..] == b[1..] {
        assert a == [a[0]] + a[1..] && b == [b[0]] + b[1..];
      }
    }
  }

  lemma {:induction false} BelowAsymmetric(a: string, b: string)
    ensures !(Below(a, b) && Below(b, a))
  {
    if a != [] && b != [] && a[0] == b[0] {
      BelowAsymmetric(a[1..], b[1..]);
    }
  }

  lemma {:induction false} BelowTransitive(a: string, b: string, c: string)
    requires Below(a, b) && Below(b, c)
    ensures Below(a, c)
  {
    if a != [] && b != [] && c != [] && a[0] == b[0] && b[0] == c[0] {
      BelowTransitive(a[1..], b[1..], c[1..]);
    }
  }

  /** Ascending and without repeats. */
  predicate StrictlySorted(s: seq<string>)
  {
    forall i, j :: 0 <= i < j < |s| ==> Below(s[i], s[j])
  }

  /** Puts a new string into its place in a sorted list. */
  function InsertSorted(s: seq<string>, x: string): (r: seq<string>)
    requires StrictlySorted(s) && x !in s
    ensures StrictlySorted(r)
    ensures forall y :: y in r <==> y in s || y == x
    ensures |r| == |s| + 1
  {
    if s == [] then [x]
    else if Below(x, s[0]) then
      assert forall j :: 0 < j < |s| ==> Below(x, s[j]) by {
        forall j | 0 < j < |s| ensures Below(x, s[j]) {
          BelowTransitive(x, s[0], s[j]);
        }
      }
      [x] + s
    else
      BelowTotal(x, s[0]);
      assert x != s[0];
      var rest := InsertSorted(s[1..], x);
      assert forall y :: y in rest ==> Below(s[0], y) by {
        forall y | y in rest ensures Below(s[0], y) {
          if y != x {
            var j :| 0 <= j < |s[1..]| && s[1..][j] == y;
            assert s[j + 1] == y;
          }
        }
      }
      var r := [s[0]] + rest;
      assert forall j :: 0 < j < |r| ==> r[j] in rest;
      r
  }

  /** Whether a log's category reaches the list: present and non-empty. */
  predicate Listed(c: Option<string>)
  {
    c.Some? && c.value != ""
  }

  /** The category loop and the sort: every present, non-empty category
      once, in ascending order. */
  method DashboardCategories(categorias: seq<Option<string>>) returns (cats: seq<string>)
    ensures StrictlySorted(cats)
    ensures forall c :: c in cats <==> Some(c) in categorias && c != ""
  {
    var seen: seq<string> := [];
    for i := 0 to |categorias|
      invariant forall c :: c in seen <==> Some(c) in categorias[..i] && c != ""
      invariant forall a, b :: 0 <= a < b < |seen| ==> seen[a] != seen[b]
    {
      assert categorias[..i + 1] == categorias[..i] + [categorias[i]];
      var c := categorias[i];
      if Listed(c) && c.value !in seen {
        seen := seen + [c.value];
      }
    }
    assert categorias[..|categorias|] == categorias;
    cats := SortDistinct(seen);
  }

  /** `Array.from(set).sort()`. */
  method SortDistinct(s: seq<string>) returns (sorted: seq<string>)
    requires forall a, b :: 0 <= a < b < |s| ==> s[a] != s[b]
    ensures StrictlySorted(sorted)
    ensures forall c :: c in sorted <==> c in s
    ensures |sorted| == |s|
  {
    sorted := [];
    for i := 0 to |s|
      invariant StrictlySorted(sorted) && |sorted| == i
      invariant forall c :: c in sorted <==> c in s[..i]
    {
      assert s[..i + 1] == s[..i] + [s[i]];
      assert s[i] !in s[..i];
      sorted := InsertSorted(sorted, s[i]);
    }
    assert s[..|s|] == s;
  }

  // ---------------------------------------------------------------------
  // The per-student summary
  // ---------------------------------------------------------------------

  datatype Summary = Summary(
    alunoId: string,
    studentName: Option<string>,
    totalDuration: int,
    logCount: nat,
    lastActivity: Option<int>,
    hasAlert: int)

  /** The categories that raise the alert flag. */
  predicate IsAlertCategory(c: Option<string>)
  {
    c == Some("Rede Social") || c == Some("Jogos")
  }

  /** `log.duration || 0`. */
  function DurationOf(l: Log): int
  {
    if l.duration.Some? then l.duration.value else 0
  }

  /** How many of the logs belong to `id`. */
  function Count(logs: seq<Log>, id: string): nat
  {
    if logs == [] then 0
    else Count(logs[..|logs| - 1], id) + (if logs[|logs| - 1].alunoId == id then 1 else 0)
  }

  function TotalDuration(logs: seq<Log>, id: string): int
  {
    if logs == [] then 0
    else TotalDuration(logs[..|logs| - 1], id) + (if logs[|logs| - 1].alunoId == id then DurationOf(logs[|logs| - 1]) else 0)
  }

  /** The `last_activity` update: the first log sets it, a later one only
      when it is newer. */
  function LastActivity(logs: seq<Log>, id: string): Option<int>
  {
    if logs == [] then None
    else
      var before := LastActivity(logs[..|logs| - 1], id);
      var l := logs[|logs| - 1];
      if l.alunoId == id && (before.None? || l.timestamp > before.value) then Some(l.timestamp) else before
  }

  function Alerted(logs: seq<Log>, id: string): bool
  {
    if logs == [] then false
    else Alerted(logs[..|logs| - 1], id) || (logs[|logs| - 1].alunoId == id && IsAlertCategory(logs[|logs| - 1].categoria))
  }

  /** The summary of one student after the logs. */
  function SummaryOf(logs: seq<Log>, names: map<string, Option<string>>, id: string): (r: Summary)
    ensures r.alunoId == id
    ensures r.logCount > 0 <==> id in IdsIn(logs)
    ensures r.lastActivity.Some? <==> r.logCount > 0
    ensures r.hasAlert == 1 ==> r.logCount > 0
  {
    CountPositive(logs, id);
    LastActivityIsNewest(logs, id);
    AlertIsSticky(logs, id);
    Summary(id, StudentName(names, id), TotalDuration(logs, id), Count(logs, id),
      LastActivity(logs, id), if Alerted(logs, id) then 1 else 0)
  }

  /** The identifiers that occur in the logs. */
  function IdsIn(logs: seq<Log>): set<string>
  {
    set l | l in logs :: l.alunoId
  }

  /** `last_activity` is the newest timestamp among the student's logs,
      and is set exactly when the student has a log. */
  lemma {:induction false} LastActivityIsNewest(logs: seq<Log>, id: string)
    ensures LastActivity(logs, id).None? <==> forall k :: 0 <= k < |logs| ==> logs[k].alunoId != id
    ensures LastActivity(logs, id).Some? ==>
      (forall k :: 0 <= k < |logs| && logs[k].alunoId == id ==> logs[k].timestamp <= LastActivity(logs, id).value)
      && (exists k :: 0 <= k < |logs| && logs[k].alunoId == id && logs[k].timestamp == LastActivity(logs, id).value)
  {
    if logs != [] {
      var init := logs[..|logs| - 1];
      LastActivityIsNewest(init, id);
      var last := LastActivity(logs, id);
      forall k | 0 <= k < |init| ensures init[k] == logs[k] { }
      if last.Some? {
        forall k | 0 <= k < |logs| && logs[k].alunoId == id
          ensures logs[k].timestamp <= last.value
        {
          if k < |init| {
            assert init[k] == logs[k];
          }
        }
        if last == LastActivity(init, id) {
          var k :| 0 <= k < |init| && init[k].alunoId == id && init[k].timestamp == last.value;
          assert logs[k] == init[k];
        } else {
          assert logs[|logs| - 1].timestamp == last.value;
        }
      }
    }
  }

  /** The alert flag is raised by one alerting log and never lowered. */
  lemma {:induction false} AlertIsSticky(logs: seq<Log>, id: string)
    ensures Alerted(logs, id) <==>
      exists k :: 0 <= k < |logs| && logs[k].alunoId == id && IsAlertCategory(logs[k].categoria)
  {
    if logs != [] {
      var init := logs[..|logs| - 1];
      AlertIsSticky(init, id);
      if Alerted(init, id) {
        var k :| 0 <= k < |init| && init[k].alunoId == id && IsAlertCategory(init[k].categoria);
        assert logs[k] == init[k];
      }
      if exists k :: 0 <= k < |logs| && logs[k].alunoId == id && IsAlertCategory(logs[k].categoria) {
        var k :| 0 <= k < |logs| && logs[k].alunoId == id && IsAlertCategory(logs[k].categoria);
        if k < |init| {
          assert init[k] == logs[k];
        }
      }
    }
  }

  /** Before a student's first log every field of the summary is at its
      initial value. */
  lemma {:induction false} AbsentSummary(logs: seq<Log>, id: string)
    requires id !in IdsIn(logs)
    ensures Count(logs, id) == 0 && TotalDuration(logs, id) == 0
    ensures LastActivity(logs, id).None? && !Alerted(logs, id)
  {
    if logs != [] {
      var init := logs[..|logs| - 1];
      assert logs == init + [logs[|logs| - 1]];
      assert IdsIn(logs) == IdsIn(init) + {logs[|logs| - 1].alunoId};
      AbsentSummary(init, id);
    }
  }

  /** A student with a log has a count of at least one. */
  lemma {:induction false} CountPositive(logs: seq<Log>, id: string)
    ensures Count(logs, id) > 0 <==> id in IdsIn(logs)
  {
    if logs != [] {
      var init := logs[..|logs| - 1];
      CountPositive(init, id);
      assert logs == init + [logs[|logs| - 1]];
      assert IdsIn(logs) == IdsIn(init) + {logs[|logs| - 1].alunoId};
    }
  }

  /** What one log does to its student's summary: the duration is added,
      the count goes up, the newest timestamp is kept and an alerting
      category sets the flag. */
  function Absorbed(s: Summary, l: Log): Summary
  {
    s.(totalDuration := s.totalDuration + DurationOf(l),
       logCount := s.logCount + 1,
       lastActivity := if s.lastActivity.None? || l.timestamp > s.lastActivity.value then Some(l.timestamp) else s.lastActivity,
       hasAlert := if IsAlertCategory(l.categoria) then 1 else s.hasAlert)
  }

  /** What one log does to the summaries: its student's entry is created
      on first sight, then absorbs the log. */
  function Absorb(summary: map<string, Summary>, names: map<string, Option<string>>, l: Log): map<string, Summary>
  {
    var s := if l.alunoId in summary then summary[l.alunoId]
             else Summary(l.alunoId, StudentName(names, l.alunoId), 0, 0, None, 0);
    summary[l.alunoId := Absorbed(s, l)]
  }

  /** The summaries after some logs are the `SummaryOf` of exactly the
      identifiers seen so far. */
  ghost predicate Summarises(summary: map<string, Summary>, logs: seq<Log>, names: map<string, Option<string>>)
  {
    (forall id :: id in summary <==> id in IdsIn(logs))
    && forall id :: id in summary ==> summary[id] == SummaryOf(logs, names, id)
  }

  /** One more log changes only its own student's summary, and changes it
      the way `Absorbed` says. */
  lemma SummaryStep(logs: seq<Log>, names: map<string, Option<string>>, id: string)
    requires logs != []
    ensures var init := logs[..|logs| - 1]; var l := logs[|logs| - 1];
      SummaryOf(logs, names, id) ==
        if l.alunoId == id then Absorbed(SummaryOf(init, names, id), l) else SummaryOf(init, names, id)
  {
  }

  lemma AbsorbSummarises(summary: map<string, Summary>, logs: seq<Log>, names: map<string, Option<string>>)
    requires logs != [] && Summarises(summary, logs[..|logs| - 1], names)
    ensures Summarises(Absorb(summary, names, logs[|logs| - 1]), logs, names)
  {
    var init := logs[..|logs| - 1];
    var l := logs[|logs| - 1];
    assert IdsIn(logs) == IdsIn(init) + {l.alunoId} by {
      assert logs == init + [l];
    }
    if l.alunoId !in summary {
      AbsentSummary(init, l.alunoId);
    }
    var next := Absorb(summary, names, l);
    forall id | id in next ensures next[id] == SummaryOf(logs, names, id) {
      SummaryStep(logs, names, id);
    }
  }

  /** The position of an identifier's first log. */
  function FirstIndex(logs: seq<Log>, id: string): (r: nat)
    requires id in IdsIn(logs)
    ensures r < |logs| && logs[r].alunoId == id
    ensures forall k :: 0 <= k < r ==> logs[k].alunoId != id
  {
    var l :| l in logs && l.alunoId == id;
    if logs[0].alunoId == id then 0
    else
      assert id in IdsIn(logs[1..]) by {
        var k :| 0 <= k < |logs| && logs[k] == l;
        assert logs[1..][k - 1] == l;
      }
      1 + FirstIndex(logs[1..], id)
  }

  /** A log whose identifier does not occur before it is that
      identifier's first log. */
  lemma FirstIndexAt(logs: seq<Log>, i: nat, id: string)
    requires i < |logs| && logs[i].alunoId == id && id !in IdsIn(logs[..i])
    ensures id in IdsIn(logs) && FirstIndex(logs, id) == i
  {
    assert logs[i] in logs;
  }

  /** `order` lists identifiers whose first logs lie before position `i`,
      by the position of their first log. */
  ghost predicate CreationOrder(logs: seq<Log>, order: seq<string>, i: int)
  {
    (forall a :: 0 <= a < |order| ==> order[a] in IdsIn(logs) && FirstIndex(logs, order[a]) < i)
    && forall a, b :: 0 <= a < b < |order| ==> FirstIndex(logs, order[a]) < FirstIndex(logs, order[b])
  }

  /** Appending the identifier of a log seen for the first time keeps the
      creation order. */
  lemma CreationOrderStep(logs: seq<Log>, order: seq<string>, i: nat)
    requires i < |logs| && CreationOrder(logs, order, i) && logs[i].alunoId !in IdsIn(logs[..i])
    ensures CreationOrder(logs, order + [logs[i].alunoId], i + 1)
  {
    FirstIndexAt(logs, i, logs[i].alunoId);
    var next := order + [logs[i].alunoId];
    assert forall a :: 0 <= a < |order| ==> next[a] == order[a];
  }

  /** The summary fold: one summary per identifier seen, created on its
      first log; `order` lists the identifiers in creation order, that is
      by the position of their first log. */
  method Accumulate(logs: seq<Log>, names: map<string, Option<string>>)
    returns (summary: map<string, Summary>, order: seq<string>)
    ensures forall id :: id in summary <==> id in IdsIn(logs)
    ensures forall id :: id in summary ==> summary[id] == SummaryOf(logs, names, id)
    ensures forall id :: id in order <==> id in summary
    ensures forall a, b :: 0 <= a < b < |order| ==> order[a] != order[b]
    ensures CreationOrder(logs, order, |logs|)
  {
    summary := map[];
    order := [];
    for i := 0 to |logs|
      invariant Summarises(summary, logs[..i], names)
      invariant forall id :: id in order <==> id in summary
      invariant forall a, b :: 0 <= a < b < |order| ==> order[a] != order[b]
      invariant CreationOrder(logs, order, i)
    {
      var l := logs[i];
      if l.alunoId !in summary {
        CreationOrderStep(logs, order, i);
        order := order + [l.alunoId];
      }
      assert logs[..i + 1][..i] == logs[..i] && logs[..i + 1][i] == l;
      AbsorbSummarises(summary, logs[..i + 1], names);
      summary := Absorb(summary, names, l);
    }
    assert logs[..|logs|] == logs;
  }

  /** `new Date(last_activity)` as a number: a missing value is 0. */
  function SortKey(s: Summary): int
  {
    if s.lastActivity.Some? then s.lastActivity.value else 0
  }

  predicate NewestFirst(s: seq<Summary>)
  {
    forall i, j :: 0 <= i < j < |s| ==> SortKey(s[i]) >= SortKey(s[j])
  }

  /** Puts a summary after every one at least as new: a stable insertion. */
  function InsertByActivity(s: seq<Summary>, x: Summary): (r: seq<Summary>)
    requires NewestFirst(s)
    ensures NewestFirst(r)
    ensures multiset(r) == multiset(s) + multiset{x}
  {
    if s == [] then [x]
    else if SortKey(x) > SortKey(s[0]) then [x] + s
    else
      var rest := InsertByActivity(s[1..], x);
      assert s == [s[0]] + s[1..];
      assert forall j :: 0 <= j < |rest| ==> SortKey(s[0]) >= SortKey(rest[j]) by {
        forall j | 0 <= j < |rest| ensures SortKey(s[0]) >= SortKey(rest[j]) {
          assert rest[j] in multiset(rest);
        }
      }
      [s[0]] + rest
  }

  /** The route's result: the summaries, newest activity first. */
  method Summarize(logs: seq<Log>, names: map<string, Option<string>>) returns (results: seq<Summary>)
    ensures NewestFirst(results)
    ensures |results| == |IdsIn(logs)|
    ensures forall k :: 0 <= k < |results| ==> results[k] == SummaryOf(logs, names, results[k].alunoId)
    ensures forall id :: id in IdsIn(logs) <==> SummaryOf(logs, names, id) in results
  {
    var summary, order := Accumulate(logs, names);
    var values := seq(|order|, k requires 0 <= k < |order| => summary[order[k]]);
    results := SortByActivity(values);
    SummaryFacts(logs, names, summary, order, values, results);
  }

  /** The sort by `last_activity`, newest first, as repeated stable
      insertion. */
  method SortByActivity(values: seq<Summary>) returns (results: seq<Summary>)
    ensures NewestFirst(results)
    ensures multiset(results) == multiset(values)
  {
    results := [];
    for i := 0 to |values|
      invariant NewestFirst(results)
      invariant multiset(results) == multiset(values[..i])
    {
      assert values[..i + 1] == values[..i] + [values[i]];
      results := InsertByActivity(results, values[i]);
    }
    assert values[..|values|] == values;
  }

  lemma SummaryFacts(logs: seq<Log>, names: map<string, Option<string>>, summary: map<string, Summary>,
                     order: seq<string>, values: seq<Summary>, results: seq<Summary>)
    requires forall id :: id in summary <==> id in IdsIn(logs)
    requires forall id :: id in summary ==> summary[id] == SummaryOf(logs, names, id)
    requires forall id :: id in order <==> id in summary
    requires forall a, b :: 0 <= a < b < |order| ==> order[a] != order[b]
    requires |values| == |order| && forall k :: 0 <= k < |order| ==> order[k] in summary && values[k] == summary[order[k]]
    requires multiset(results) == multiset(values)
    ensures |results| == |IdsIn(logs)|
    ensures forall k :: 0 <= k < |results| ==> results[k] == SummaryOf(logs, names, results[k].alunoId)
    ensures forall id :: id in IdsIn(logs) <==> SummaryOf(logs, names, id) in results
  {
    assert |results| == |values| by {
      assert |multiset(results)| == |multiset(values)|;
    }
    assert |order| == |IdsIn(logs)| by {
      DistinctCard(order);
      assert (set k | k in order) == IdsIn(logs);
    }
    forall k | 0 <= k < |results| ensures results[k] == SummaryOf(logs, names, results[k].alunoId) {
      assert results[k] in multiset(values);
      var j :| 0 <= j < |values| && values[j] == results[k];
    }
    forall id ensures id in IdsIn(logs) <==> SummaryOf(logs, names, id) in results {
      if id in IdsIn(logs) {
        var j :| 0 <= j < |order| && order[j] == id;
        assert values[j] in multiset(results);
      }
      if SummaryOf(logs, names, id) in results {
        assert SummaryOf(logs, names, id) in multiset(values);
        var j :| 0 <= j < |values| && values[j] == SummaryOf(logs, names, id);
      }
    }
  }

  lemma {:induction false} DistinctCard(s: seq<string>)
    requires forall a, b :: 0 <= a < b < |s| ==> s[a] != s[b]
    ensures |set k | k in s| == |s|
  {
    if s != [] {
      var init := s[..|s| - 1];
      DistinctCard(init);
      assert (set k | k in s) == (set k | k in init) + {s[|s| - 1]};
      assert s[|s| - 1] !in init;
    }
  }
}
