/**
 * The hash-chained, keyed log that the audit log and the certificate
 * transparency log share. A body holds what is particular to each.
 */
module ChainedLog {

  datatype Entry<Body> = Entry(id: string, ts: string, body: Body, prevEntryId: string, entryMac: string)

  /** The keyed digest of an entry's identifier, time, body and predecessor; GENESIS stands for no predecessor. */
  type Signer<!Body> = (string, string, Body, string) -> string

  function Sign<Body>(sign: Signer<Body>, id: string, ts: string, body: Body, prevEntryId: string): string {
    sign(id, ts, body, if prevEntryId == "" then "GENESIS" else prevEntryId)
  }

  datatype ChainError = MacMismatch(id: string) | BrokenChain(id: string, expectedPrev: string)

  // ---------- Specification ----------

  function LastId<Body>(entries: seq<Entry<Body>>): string {
    if entries == [] then "" else entries[|entries| - 1].id
  }

  /** The log with one more entry, linked to the last one. */
  function Appended<Body>(sign: Signer<Body>, entries: seq<Entry<Body>>, id: string, ts: string, body: Body): seq<Entry<Body>> {
    var prev := LastId(entries);
    entries + [Entry(id, ts, body, prev, Sign(sign, id, ts, body, prev))]
  }

  function EntryErrors<Body>(sign: Signer<Body>, e: Entry<Body>, prevId: string): seq<ChainError> {
    (if e.entryMac != Sign(sign, e.id, e.ts, e.body, e.prevEntryId) then [MacMismatch(e.id)] else []) +
    (if e.prevEntryId != prevId then [BrokenChain(e.id, prevId)] else [])
  }

  function ChainErrors<Body>(sign: Signer<Body>, entries: seq<Entry<Body>>): seq<ChainError> {
    if entries == [] then []
    else
      var prefix := entries[..|entries| - 1];
      ChainErrors(sign, prefix) + EntryErrors(sign, entries[|entries| - 1], LastId(prefix))
  }

  /** What is wrong with entry i: its own code, or its link to the entry before it. */
  ghost predicate Reports<Body>(sign: Signer<Body>, entries: seq<Entry<Body>>, i: nat, error: ChainError)
    requires i < |entries|
  {
    var e, prevId := entries[i], if i == 0 then "" else entries[i - 1].id;
    || (error == MacMismatch(e.id) && e.entryMac != sign(e.id, e.ts, e.body, if e.prevEntryId == "" then "GENESIS" else e.prevEntryId))
    || (error == BrokenChain(e.id, prevId) && e.prevEntryId != prevId)
  }

  /** Nothing else is reported, and nothing that is wrong is left out. */
  lemma ErrorsExactly<Body>(sign: Signer<Body>, entries: seq<Entry<Body>>, error: ChainError)
    ensures error in ChainErrors(sign, entries) <==> exists i :: 0 <= i < |entries| && Reports(sign, entries, i, error)
  {
    hide ChainErrors, Reports;
    assert entries[..|entries|] == entries;
    ErrorsUpTo(sign, entries, |entries|, error);
  }

  lemma {:induction false} ErrorsUpTo<Body>(sign: Signer<Body>, entries: seq<Entry<Body>>, n: nat, error: ChainError)
    requires n <= |entries|
    ensures error in ChainErrors(sign, entries[..n]) <==> exists i :: 0 <= i < n && Reports(sign, entries, i, error)
  {
    hide Reports, EntryErrors, LastId, ChainErrors;
    OneMoreEntry(sign, entries, n);
    if n > 0 {
      ErrorsUpTo(sign, entries, n - 1, error);
      LastReports(sign, entries, n - 1, error);
      assert (exists i :: 0 <= i < n && Reports(sign, entries, i, error)) <==>
        (exists i :: 0 <= i < n - 1 && Reports(sign, entries, i, error)) || Reports(sign, entries, n - 1, error);
    }
  }

  lemma OneMoreEntry<Body>(sign: Signer<Body>, entries: seq<Entry<Body>>, n: nat)
    requires n <= |entries|
    ensures ChainErrors(sign, entries[..n]) ==
      if n == 0 then [] else ChainErrors(sign, entries[..n - 1]) + EntryErrors(sign, entries[n - 1], LastId(entries[..n - 1]))
  {
    hide EntryErrors, LastId;
    if n > 0 {
      assert entries[..n][..n - 1] == entries[..n - 1];
    }
  }

  lemma LastReports<Body>(sign: Signer<Body>, entries: seq<Entry<Body>>, i: nat, error: ChainError)
    requires i < |entries|
    ensures error in EntryErrors(sign, entries[i], LastId(entries[..i])) <==> Reports(sign, entries, i, error)
  {
  }

  /** The code of entry i is its own, and it points to the entry before it. */
  ghost predicate Clean<Body>(sign: Signer<Body>, entries: seq<Entry<Body>>, i: nat)
    requires i < |entries|
  {
    var e := entries[i];
    && e.entryMac == sign(e.id, e.ts, e.body, if e.prevEntryId == "" then "GENESIS" else e.prevEntryId)
    && e.prevEntryId == (if i == 0 then "" else entries[i - 1].id)
  }

  lemma CleanExactly<Body>(sign: Signer<Body>, entries: seq<Entry<Body>>)
    ensures ChainErrors(sign, entries) == [] <==> forall i :: 0 <= i < |entries| ==> Clean(sign, entries, i)
  {
    hide ChainErrors, Clean;
    assert entries[..|entries|] == entries;
    CleanUpTo(sign, entries, |entries|);
  }

  lemma {:induction false} CleanUpTo<Body>(sign: Signer<Body>, entries: seq<Entry<Body>>, n: nat)
    requires n <= |entries|
    ensures ChainErrors(sign, entries[..n]) == [] <==> forall i :: 0 <= i < n ==> Clean(sign, entries, i)
  {
    hide Clean, EntryErrors, LastId, ChainErrors;
    OneMoreEntry(sign, entries, n);
    if n > 0 {
      CleanUpTo(sign, entries, n - 1);
      LastClean(sign, entries, n - 1);
    }
  }

  lemma LastClean<Body>(sign: Signer<Body>, entries: seq<Entry<Body>>, i: nat)
    requires i < |entries|
    ensures EntryErrors(sign, entries[i], LastId(entries[..i])) == [] <==> Clean(sign, entries, i)
  {
  }

  // ---------- Implementation ----------

  class ChainedLog<Body(==)> {
    const sign: Signer<Body>
    var entries: seq<Entry<Body>>

    constructor (sign: Signer<Body>)
      ensures this.sign == sign && entries == []
    {
      this.sign := sign;
      entries := [];
    }

    method Record(id: string, ts: string, body: Body)
      modifies this
      ensures entries == Appended(sign, old(entries), id, ts, body)
      ensures |entries| == |old(entries)| + 1 && entries[..|old(entries)|] == old(entries)
      ensures
        var prev := if old(entries) == [] then "" else old(entries)[|old(entries)| - 1].id;
        entries[|old(entries)|] == Entry(id, ts, body, prev, sign(id, ts, body, if prev == "" then "GENESIS" else prev))
    {
      var prevEntryId := if |entries| > 0 then entries[|entries| - 1].id else "";
      var mac := Sign(sign, id, ts, body, prevEntryId);
      entries := entries + [Entry(id, ts, body, prevEntryId, mac)];
    }

    /** Loads the lines that parse; a corrupt line is skipped. */
    method LoadFromDisk<Line>(lines: seq<Line>, parse: Line -> seq<Entry<Body>>)
      requires forall line :: line in lines ==> |parse(line)| <= 1
      modifies this
      ensures entries == old(entries) + Loaded(lines, parse)
    {
      for i := 0 to |lines|
        invariant entries == old(entries) + Loaded(lines[..i], parse)
      {
        assert lines[..i + 1][..i] == lines[..i];
        entries := entries + parse(lines[i]);
      }
      assert lines[..|lines|] == lines;
    }

    method VerifyChain() returns (valid: bool, errors: seq<ChainError>)
      ensures errors == ChainErrors(sign, entries)
      ensures valid <==> errors == []
      ensures forall error :: error in errors <==> exists i :: 0 <= i < |entries| && Reports(sign, entries, i, error)
    {
      errors := [];
      var prevId := "";
      for i := 0 to |entries|
        invariant errors == ChainErrors(sign, entries[..i])
        invariant prevId == LastId(entries[..i])
      {
        assert entries[..i + 1][..i] == entries[..i];
        var entry := entries[i];
        ghost var before := errors;
        var expectedMac := Sign(sign, entry.id, entry.ts, entry.body, entry.prevEntryId);
        if entry.entryMac != expectedMac {
          errors := errors + [MacMismatch(entry.id)];
        }
        if entry.prevEntryId != prevId {
          errors := errors + [BrokenChain(entry.id, prevId)];
        }
        assert errors == before + EntryErrors(sign, entry, prevId);
        prevId := entry.id;
      }
      assert entries[..|entries|] == entries;
      valid := |errors| == 0;
      forall error ensures error in errors <==> exists i :: 0 <= i < |entries| && Reports(sign, entries, i, error) {
        ErrorsExactly(sign, entries, error);
      }
    }
  }

  function Loaded<Line, Body>(lines: seq<Line>, parse: Line -> seq<Entry<Body>>): seq<Entry<Body>> {
    if lines == [] then [] else Loaded(lines[..|lines| - 1], parse) + parse(lines[|lines| - 1])
  }

  // ---------- Recorded logs ----------

  /** What one call to record is given. */
  datatype Recording<Body> = Recording(id: string, ts: string, body: Body)

  function Recorded<Body>(sign: Signer<Body>, runs: seq<Recording<Body>>): seq<Entry<Body>> {
    if runs == [] then []
    else
      var r := runs[|runs| - 1];
      Appended(sign, Recorded(sign, runs[..|runs| - 1]), r.id, r.ts, r.body)
  }

  predicate FreshIds<Body>(runs: seq<Recording<Body>>) {
    && (forall i :: 0 <= i < |runs| ==> runs[i].id != "")
    && (forall i, j :: 0 <= i < j < |runs| ==> runs[i].id != runs[j].id)
  }

  /** Entry k of a recorded log is what was recorded k-th, signed, and points to entry k - 1. */
  ghost predicate EntryOf<Body>(sign: Signer<Body>, runs: seq<Recording<Body>>, k: nat, e: Entry<Body>)
    requires k < |runs|
  {
    && e.id == runs[k].id && e.ts == runs[k].ts && e.body == runs[k].body
    && e.prevEntryId == (if k == 0 then "" else runs[k - 1].id)
    && e.entryMac == sign(e.id, e.ts, e.body, if e.prevEntryId == "" then "GENESIS" else e.prevEntryId)
  }

  lemma RecordedEntries<Body>(sign: Signer<Body>, runs: seq<Recording<Body>>)
    ensures |Recorded(sign, runs)| == |runs|
    ensures forall k :: 0 <= k < |runs| ==> EntryOf(sign, runs, k, Recorded(sign, runs)[k])
  {
    hide Recorded, EntryOf;
    assert runs[..|runs|] == runs;
    RecordedUpTo(sign, runs, |runs|);
  }

  lemma {:induction false} RecordedUpTo<Body>(sign: Signer<Body>, runs: seq<Recording<Body>>, n: nat)
    requires n <= |runs|
    ensures |Recorded(sign, runs[..n])| == n
    ensures forall k :: 0 <= k < n ==> EntryOf(sign, runs, k, Recorded(sign, runs[..n])[k])
  {
    if n > 0 {
      RecordedUpTo(sign, runs, n - 1);
      assert runs[..n][..n - 1] == runs[..n - 1];
      var log := Recorded(sign, runs[..n - 1]);
      if n > 1 {
        assert EntryOf(sign, runs, n - 2, log[n - 2]);
      }
      NextEntry(sign, runs, n - 1, log);
      hide EntryOf, Appended;
    }
  }

  lemma NextEntry<Body>(sign: Signer<Body>, runs: seq<Recording<Body>>, k: nat, log: seq<Entry<Body>>)
    requires k < |runs| && |log| == k && (k > 0 ==> log[k - 1].id == runs[k - 1].id)
    ensures
      var r := Appended(sign, log, runs[k].id, runs[k].ts, runs[k].body);
      |r| == k + 1 && r[..k] == log && EntryOf(sign, runs, k, r[k])
  {
  }

  /**
   * A list whose correctly coded entries were all recorded verifies exactly when it is a
   * prefix of the recorded log: neither dropping, repeating or reordering entries nor
   * altering one without the key goes unnoticed.
   */
  lemma {:induction false} OnlyPrefixesVerify<Body>(sign: Signer<Body>, runs: seq<Recording<Body>>, list: seq<Entry<Body>>)
    requires FreshIds(runs)
    requires forall e :: e in list && e !in Recorded(sign, runs) ==>
      e.entryMac != sign(e.id, e.ts, e.body, if e.prevEntryId == "" then "GENESIS" else e.prevEntryId)
    ensures ChainErrors(sign, list) == [] <==> list <= Recorded(sign, runs)
    decreases |list|
  {
    hide Recorded, EntryErrors, EntryOf, FreshIds, LastId;
    var log := Recorded(sign, runs);
    RecordedEntries(sign, runs);
    if list != [] {
      var n := |list| - 1;
      var prefix, last := list[..n], list[n];
      OnlyPrefixesVerify(sign, runs, prefix);
      assert last in list;
      ErrorsOf(sign, last, LastId(prefix));
      assert list == prefix + [last];
      PrefixOfPrefix(prefix, last, log);
      if last in log && prefix <= log {
        var k :| 0 <= k < |log| && log[k] == last;
        LinksToNext(sign, runs, prefix, last, k);
      }
    }
  }

  lemma PrefixOfPrefix<T>(prefix: seq<T>, last: T, log: seq<T>)
    ensures prefix + [last] <= log ==> prefix <= log && last in log
  {
    if prefix + [last] <= log {
      assert prefix == log[..|prefix|] && last == log[|prefix|];
    }
  }

  lemma ErrorsOf<Body>(sign: Signer<Body>, e: Entry<Body>, prevId: string)
    ensures EntryErrors(sign, e, prevId) == [] <==>
      e.entryMac == Sign(sign, e.id, e.ts, e.body, e.prevEntryId) && e.prevEntryId == prevId
  {
  }

  /** After a prefix of the log, only the next entry links on. */
  lemma LinksToNext<Body>(sign: Signer<Body>, runs: seq<Recording<Body>>, prefix: seq<Entry<Body>>, last: Entry<Body>, k: nat)
    requires FreshIds(runs) && k < |runs| && |Recorded(sign, runs)| == |runs|
    requires prefix <= Recorded(sign, runs) && last == Recorded(sign, runs)[k]
    requires forall i :: 0 <= i < |runs| ==> EntryOf(sign, runs, i, Recorded(sign, runs)[i])
    ensures last.prevEntryId == LastId(prefix) <==> prefix + [last] <= Recorded(sign, runs)
    ensures last.entryMac == Sign(sign, last.id, last.ts, last.body, last.prevEntryId)
  {
    hide Recorded;
    var log := Recorded(sign, runs);
    var n := |prefix|;
    assert EntryOf(sign, runs, k, last);
    if n > 0 {
      assert prefix[n - 1] == log[n - 1];
      assert EntryOf(sign, runs, n - 1, log[n - 1]);
    }
    if prefix + [last] <= log {
      assert log[n] == last;
      assert EntryOf(sign, runs, n, log[n]);
    }
    if last.prevEntryId == LastId(prefix) {
      assert k == n;
      assert prefix + [last] == log[..n + 1];
    }
  }

  /** Different arguments are signed differently. */
  ghost predicate Separates<Body(!new)>(sign: Signer<Body>) {
    forall id, ts, body, prev, id', ts', body', prev' ::
      sign(id, ts, body, prev) == sign(id', ts', body', prev') ==> id == id' && ts == ts' && body == body' && prev == prev'
  }

  /**
   * One recorded entry altered under its old code: the log still verifies exactly when the
   * signer cannot tell the difference, the predecessor is the same, and so is the
   * identifier unless the entry is the last.
   */
  lemma AlteredVerifies<Body>(sign: Signer<Body>, runs: seq<Recording<Body>>, k: nat, e: Entry<Body>)
    requires k < |Recorded(sign, runs)| && e.entryMac == Recorded(sign, runs)[k].entryMac
    ensures
      var log := Recorded(sign, runs);
      var prev := if e.prevEntryId == "" then "GENESIS" else e.prevEntryId;
      ChainErrors(sign, log[k := e]) == [] <==>
        && sign(e.id, e.ts, e.body, prev) == sign(log[k].id, log[k].ts, log[k].body, prev)
        && e.prevEntryId == log[k].prevEntryId
        && (k + 1 < |log| ==> e.id == log[k].id)
  {
    hide Recorded, ChainErrors;
    var log := Recorded(sign, runs);
    var altered := log[k := e];
    RecordedEntries(sign, runs);
    CleanExactly(sign, altered);
    forall i | 0 <= i < |log|
      ensures i != k && i != k + 1 ==> Clean(sign, altered, i)
      ensures i == k + 1 ==> (Clean(sign, altered, i) <==> e.id == log[k].id)
    {
      assert EntryOf(sign, runs, i, log[i]);
      if i > 0 {
        assert EntryOf(sign, runs, i - 1, log[i - 1]);
      }
    }
    assert EntryOf(sign, runs, k, log[k]);
    if k > 0 {
      assert EntryOf(sign, runs, k - 1, log[k - 1]);
    }
    var prev := if e.prevEntryId == "" then "GENESIS" else e.prevEntryId;
    assert Clean(sign, altered, k) <==>
      sign(e.id, e.ts, e.body, prev) == sign(log[k].id, log[k].ts, log[k].body, prev) && e.prevEntryId == log[k].prevEntryId;
    assert k + 1 < |log| ==> (Clean(sign, altered, k + 1) <==> e.id == log[k].id);
    hide Clean, EntryOf;
  }

  /**
   * With a signer that separates, altering anything of a recorded entry is noticed, and an
   * altered identifier, time, body or written predecessor is reported as that entry's code.
   */
  lemma TamperingDetected<Body(!new)>(sign: Signer<Body>, runs: seq<Recording<Body>>, k: nat, e: Entry<Body>)
    requires Separates(sign)
    requires k < |Recorded(sign, runs)| && e.entryMac == Recorded(sign, runs)[k].entryMac
    ensures
      var log := Recorded(sign, runs);
      && (ChainErrors(sign, log[k := e]) == [] <==> e == log[k])
      && (e.id != log[k].id || e.ts != log[k].ts || e.body != log[k].body ||
          (e.prevEntryId != log[k].prevEntryId && e.prevEntryId != "" && log[k].prevEntryId != "") ==>
            MacMismatch(e.id) in ChainErrors(sign, log[k := e]))
  {
    hide Recorded, ChainErrors;
    var log := Recorded(sign, runs);
    AlteredVerifies(sign, runs, k, e);
    RecordedEntries(sign, runs);
    assert EntryOf(sign, runs, k, log[k]);
    var altered := log[k := e];
    ErrorsExactly(sign, altered, MacMismatch(e.id));
    assert altered[k] == e;
    if e.id != log[k].id || e.ts != log[k].ts || e.body != log[k].body ||
       (e.prevEntryId != log[k].prevEntryId && e.prevEntryId != "" && log[k].prevEntryId != "") {
      assert Reports(sign, altered, k, MacMismatch(e.id));
    }
  }

  /** A recorded log always verifies, whatever the identifiers. */
  lemma {:induction false} RecordedVerifies<Body>(sign: Signer<Body>, runs: seq<Recording<Body>>)
    ensures ChainErrors(sign, Recorded(sign, runs)) == []
    decreases |runs|
  {
    if runs != [] {
      var prefix := Recorded(sign, runs[..|runs| - 1]);
      RecordedVerifies(sign, runs[..|runs| - 1]);
      assert Recorded(sign, runs)[..|prefix|] == prefix;
    }
  }

  // ---------- Reloaded logs ----------

  /** Each line of the file is one recorded entry, or no longer readable. */
  ghost predicate FileOf<Line(!new), Body>(log: seq<Entry<Body>>, lines: seq<Line>, parse: Line -> seq<Entry<Body>>) {
    |lines| <= |log| && forall i :: 0 <= i < |lines| ==> parse(lines[i]) == [] || parse(lines[i]) == [log[i]]
  }

  /** No readable line follows an unreadable one. */
  ghost predicate Gapless<Line(!new), Body>(lines: seq<Line>, parse: Line -> seq<Entry<Body>>) {
    forall i, j :: 0 <= i < j < |lines| && parse(lines[i]) == [] ==> parse(lines[j]) == []
  }

  lemma {:induction false} LoadedLength<Line(!new), Body>(log: seq<Entry<Body>>, lines: seq<Line>, parse: Line -> seq<Entry<Body>>)
    requires FileOf(log, lines, parse)
    ensures |Loaded(lines, parse)| <= |lines|
    ensures |Loaded(lines, parse)| == |lines| <==> forall i :: 0 <= i < |lines| ==> parse(lines[i]) != []
    decreases |lines|
  {
    if lines != [] {
      LoadedLength(log, lines[..|lines| - 1], parse);
    }
  }

  lemma GaplessStep<Line(!new), Body>(log: seq<Entry<Body>>, lines: seq<Line>, parse: Line -> seq<Entry<Body>>)
    requires FileOf(log, lines, parse) && lines != []
    ensures
      var n := |lines| - 1;
      Gapless(lines, parse) <==>
        if parse(lines[n]) == [] then Gapless(lines[..n], parse) else |Loaded(lines[..n], parse)| == n
  {
    LoadedLength(log, lines[..|lines| - 1], parse);
    hide Loaded;
  }

  lemma Extends<T>(log: seq<T>, before: seq<T>, n: nat)
    requires n < |log| && |before| <= n
    requires forall i, j :: 0 <= i < j < |log| ==> log[i] != log[j]
    requires |before| == n ==> before <= log
    ensures before + [log[n]] <= log <==> |before| == n
  {
    if before + [log[n]] <= log {
      assert log[|before|] == log[n];
    }
    if |before| == n {
      assert before + [log[n]] == log[..n + 1];
    }
  }

  lemma {:induction false} LoadedFrom<Line(!new), Body>(log: seq<Entry<Body>>, lines: seq<Line>, parse: Line -> seq<Entry<Body>>)
    requires FileOf(log, lines, parse)
    requires forall i, j :: 0 <= i < j < |log| ==> log[i] != log[j]
    ensures Loaded(lines, parse) <= log <==> Gapless(lines, parse)
    decreases |lines|
  {
    if lines != [] {
      var n := |lines| - 1;
      var before := Loaded(lines[..n], parse);
      LoadedFrom(log, lines[..n], parse);
      LoadedLength(log, lines[..n], parse);
      GaplessStep(log, lines, parse);
      assert |before| == n ==> Gapless(lines[..n], parse);
      hide Gapless;
      if parse(lines[n]) != [] {
        Extends(log, before, n);
      }
    }
  }

  /**
   * A recorded log whose file has lost lines verifies after loading exactly when only its
   * last lines are lost: a gap inside it is noticed.
   */
  lemma ReloadedVerifies<Line(!new), Body>(sign: Signer<Body>, runs: seq<Recording<Body>>, lines: seq<Line>, parse: Line -> seq<Entry<Body>>)
    requires FreshIds(runs) && FileOf(Recorded(sign, runs), lines, parse)
    ensures ChainErrors(sign, Loaded(lines, parse)) == [] <==> Gapless(lines, parse)
  {
    hide *;
    var log := Recorded(sign, runs);
    DistinctEntries(sign, runs);
    LoadedFrom(log, lines, parse);
    OnlyRecorded(log, lines, parse);
    OnlyPrefixesVerify(sign, runs, Loaded(lines, parse));
  }

  lemma DistinctEntries<Body>(sign: Signer<Body>, runs: seq<Recording<Body>>)
    requires FreshIds(runs)
    ensures var log := Recorded(sign, runs); forall i, j :: 0 <= i < j < |log| ==> log[i] != log[j]
  {
    RecordedEntries(sign, runs);
    var log := Recorded(sign, runs);
    forall i, j | 0 <= i < j < |log| ensures log[i] != log[j] {
      assert EntryOf(sign, runs, i, log[i]) && EntryOf(sign, runs, j, log[j]);
    }
  }

  lemma {:induction false} OnlyRecorded<Line(!new), Body>(log: seq<Entry<Body>>, lines: seq<Line>, parse: Line -> seq<Entry<Body>>)
    requires FileOf(log, lines, parse)
    ensures forall e :: e in Loaded(lines, parse) ==> e in log
    decreases |lines|
  {
    if lines != [] {
      OnlyRecorded(log, lines[..|lines| - 1], parse);
    }
  }
}
