/** The customer's startup script URL through any number of interrupted upgrade runs. */
module StartupScript {
  import opened Text
  import opened Instance
  import opened UpgradeWorkflows

  datatype Item = Item(key: string, value: Option<string>)

  /** The first non-empty value under the key. */
  function GetMetadataValue(items: seq<Item>, key: string): Option<string> {
    if items == [] then None
    else if items[0].key == key && items[0].value.Some? && items[0].value.value != "" then items[0].value
    else GetMetadataValue(items[1..], key)
  }

  /** What a key reads as: an empty value counts as absent. */
  function Reads(metadata: map<string, string>, key: string): Option<string> {
    if key in metadata && metadata[key] != "" then Some(metadata[key]) else None
  }

  /** The items list every entry of the map once, in some order. */
  ghost predicate Lists(items: seq<Item>, metadata: map<string, string>) {
    && (forall i | 0 <= i < |items| ::
          items[i].key in metadata && (items[i].value == Some(metadata[items[i].key])
                                       || (items[i].value == None && metadata[items[i].key] == "")))
    && (forall k | k in metadata :: exists i | 0 <= i < |items| :: items[i].key == k)
  }

  lemma {:induction false} SearchFinds(items: seq<Item>, key: string, value: string)
    requires forall i | 0 <= i < |items| && items[i].key == key ::
      items[i].value == Some(value) || (items[i].value == None && value == "")
    ensures GetMetadataValue(items, key) ==
      if value != "" && exists i | 0 <= i < |items| :: items[i].key == key then Some(value) else None
  {
    if items != [] {
      SearchFinds(items[1..], key, value);
      if exists i | 0 <= i < |items| :: items[i].key == key {
        var i :| 0 <= i < |items| && items[i].key == key;
        assert i > 0 ==> items[1..][i - 1].key == key;
      }
      if exists i | 0 <= i < |items[1..]| :: items[1..][i].key == key {
        var i :| 0 <= i < |items[1..]| && items[1..][i].key == key;
        assert items[i + 1].key == key;
      }
    }
  }

  lemma SearchReadsTheMap(items: seq<Item>, metadata: map<string, string>, key: string)
    requires Lists(items, metadata)
    ensures GetMetadataValue(items, key) == Reads(metadata, key)
  {
    SearchFinds(items, key, if key in metadata then metadata[key] else "");
  }

  /** What a new run takes for the original script URL. */
  function Derived(metadata: map<string, string>): Option<string> {
    if Reads(metadata, SCRIPT_URL_BACKUP).Some? then Reads(metadata, SCRIPT_URL_BACKUP)
    else Reads(metadata, SCRIPT_URL)
  }

  lemma KeysDiffer()
    ensures SCRIPT_URL != SCRIPT_URL_BACKUP
    ensures SCRIPT_URL !in ["expected-current-version", "expected-new-version", "install-folder"]
    ensures SCRIPT_URL_BACKUP !in ["expected-current-version", "expected-new-version", "install-folder"]
  {
    assert |SCRIPT_URL| == 26 && |SCRIPT_URL_BACKUP| == 33;
  }

  lemma {:induction false} MetadataUntouched(w: World, ops: seq<Op>)
    requires forall i | 0 <= i < |ops| :: !ops[i].UpdateMetadata?
    requires ApplyAll(w, ops).Some?
    ensures ApplyAll(w, ops).value.metadata == w.metadata
    decreases |ops|
  {
    if ops != [] {
      MetadataUntouched(Apply(w, ops[0]).value, ops[1..]);
    }
  }

  lemma RestoreKeeps(u: Vars, metadata: map<string, string>)
    requires u.originalUrl.Some? && u.originalUrl.value != ""
    ensures Derived(metadata + RestoreScript(u).entries) == u.originalUrl
  {
    KeysDiffer();
  }

  /** The steps of every phase but the preparation touch the metadata only to restore. */
  lemma {:induction false} RestoringOps(u: Vars, w: World, ops: seq<Op>)
    requires u.originalUrl.Some? && u.originalUrl.value != "" && Derived(w.metadata) == u.originalUrl
    requires forall i | 0 <= i < |ops| :: ops[i].UpdateMetadata? ==> ops[i] == RestoreScript(u)
    requires ApplyAll(w, ops).Some?
    ensures Derived(ApplyAll(w, ops).value.metadata) == u.originalUrl
    decreases |ops|
  {
    if ops != [] {
      RestoreKeeps(u, w.metadata);
      RestoringOps(u, Apply(w, ops[0]).value, ops[1..]);
    }
  }

  /** The script steps of the preparation, as far as they got. */
  lemma PrepareScriptKeeps(u: Vars, w: World, ops: seq<Op>)
    requires u.originalUrl.Some? && u.originalUrl.value != "" && Derived(w.metadata) == u.originalUrl
    requires ops <= PrepareScript(u) && ApplyAll(w, ops).Some?
    ensures Derived(ApplyAll(w, ops).value.metadata) == u.originalUrl
  {
    ScriptSteps(u, w.metadata);
    var backup := BackupScript(u.originalUrl.value);
    if |ops| == 1 {
      assert ops == [backup];
      ApplyOne(w, backup);
    } else if |ops| == 2 {
      assert ops == [backup, SetScript(u)];
      ApplyTwo(w, backup, SetScript(u));
    }
  }

  lemma ScriptSteps(u: Vars, m: map<string, string>)
    requires u.originalUrl.Some? && u.originalUrl.value != ""
    ensures Derived(m + map[SCRIPT_URL_BACKUP := u.originalUrl.value]) == u.originalUrl
    ensures Derived(m + map[SCRIPT_URL_BACKUP := u.originalUrl.value] + SetScript(u).entries) == u.originalUrl
  {
    KeysDiffer();
  }

  lemma PrepareSplits(u: Vars, k: nat)
    requires k <= |PrepareOps(u)|
    ensures var disks := PrepareHead(u) + PrepareDisks(u);
      var n := if k < |disks| then k else |disks|;
      && PrepareOps(u)[..k] == disks[..n] + PrepareScript(u)[..k - n]
      && forall i | 0 <= i < n :: !disks[i].UpdateMetadata?
  {
  }

  lemma PrepareAttemptKeepsScript(u: Vars, w: World, k: nat)
    requires u.originalUrl.Some? && u.originalUrl.value != "" && Derived(w.metadata) == u.originalUrl
    requires k <= |PrepareOps(u)| && ApplyAll(w, PrepareOps(u)[..k]).Some?
    ensures Derived(ApplyAll(w, PrepareOps(u)[..k]).value.metadata) == u.originalUrl
  {
    var disks := PrepareHead(u) + PrepareDisks(u);
    var n := if k < |disks| then k else |disks|;
    PrepareSplits(u, k);
    ApplyAllConcat(w, disks[..n], PrepareScript(u)[..k - n]);
    MetadataUntouched(w, disks[..n]);
    PrepareScriptKeeps(u, ApplyAll(w, disks[..n]).value, PrepareScript(u)[..k - n]);
  }

  lemma OtherPhasesRestore(u: Vars, p: Phase, k: nat)
    requires p != Prepare && k < |PhaseSteps(u, p)|
    ensures PhaseSteps(u, p)[k].op.UpdateMetadata? ==> PhaseSteps(u, p)[k].op == RestoreScript(u)
  {
  }

  /** Whatever part of a phase takes effect, the script URL can still be derived. */
  lemma AttemptKeepsScript(u: Vars, p: Phase, w: World, trace: seq<nat>, w': World)
    requires u.originalUrl.Some? && u.originalUrl.value != "" && Derived(w.metadata) == u.originalUrl
    requires Attempt(PhaseSteps(u, p), w, trace, w')
    ensures Derived(w'.metadata) == u.originalUrl
  {
    var ops := OpsOf(PhaseSteps(u, p), trace);
    if p == Prepare {
      PrepareIsAChain(u, trace);
      PrepareAttemptKeepsScript(u, w, |trace|);
    } else {
      forall i | 0 <= i < |ops|
        ensures ops[i].UpdateMetadata? ==> ops[i] == RestoreScript(u)
      {
        OtherPhasesRestore(u, p, trace[i]);
      }
      RestoringOps(u, w, ops);
    }
  }

  /* Runs and sequences of runs. */

  datatype Event = Event(phase: Phase, trace: seq<nat>)

  /** Any attempts at any phases, each cut off anywhere. */
  ghost predicate Events(u: Vars, w: World, events: seq<Event>, w': World)
    decreases |events|
  {
    if events == [] then w' == w
    else exists w1 :: Attempt(PhaseSteps(u, events[0].phase), w, events[0].trace, w1) && Events(u, w1, events[1..], w')
  }

  datatype Run = Run(u: Vars, start: World, events: seq<Event>, end: World)

  /** Each run derives its original URL from the metadata it finds. Between runs anything
      but the metadata may change. */
  ghost predicate History(runs: seq<Run>) {
    && (forall i | 0 <= i < |runs| ::
          && runs[i].u.originalUrl == Derived(runs[i].start.metadata)
          && Events(runs[i].u, runs[i].start, runs[i].events, runs[i].end))
    && (forall i | 0 <= i < |runs| - 1 :: runs[i + 1].start.metadata == runs[i].end.metadata)
  }

  lemma {:induction false} EventsKeepScript(u: Vars, w: World, events: seq<Event>, w': World)
    requires u.originalUrl.Some? && u.originalUrl.value != "" && Derived(w.metadata) == u.originalUrl
    requires Events(u, w, events, w')
    ensures Derived(w'.metadata) == u.originalUrl
    decreases |events|
  {
    if events != [] {
      var w1 :| Attempt(PhaseSteps(u, events[0].phase), w, events[0].trace, w1) && Events(u, w1, events[1..], w');
      AttemptKeepsScript(u, events[0].phase, w, events[0].trace, w1);
      EventsKeepScript(u, w1, events[1..], w');
    }
  }

  /** A script URL that is there at the start survives every sequence of runs, however they
      are interrupted: every run derives it as the original, and after every run either the
      backup reads it, or the backup reads as absent and the URL itself reads it. */
  lemma {:induction false} ScriptIsNeverLost(runs: seq<Run>, url: string, k: nat)
    requires History(runs) && k < |runs| && Derived(runs[0].start.metadata) == Some(url)
    ensures runs[k].u.originalUrl == Some(url)
    ensures var m := runs[k].end.metadata;
      || Reads(m, SCRIPT_URL_BACKUP) == Some(url)
      || (Reads(m, SCRIPT_URL_BACKUP) == None && Reads(m, SCRIPT_URL) == Some(url))
    decreases k
  {
    if k > 0 {
      ScriptIsNeverLost(runs, url, k - 1);
      assert runs[k - 1 + 1].start.metadata == runs[k - 1].end.metadata;
    }
    EventsKeepScript(runs[k].u, runs[k].start, runs[k].events, runs[k].end);
  }

  /** A run that stops after its preparation leaves the original URL derivable if and only
      if there was one. With none, the next run takes the tool's own script for the
      customer's, and its cleanup or rollback will install it for good. */
  lemma PreparationKeepsOriginalExactlyWhen(u: Vars, w: World, trace: seq<nat>, w': World)
    requires u.originalUrl == Derived(w.metadata)
    requires Attempt(PhaseSteps(u, Prepare), w, trace, w') && Complete(PhaseSteps(u, Prepare), trace)
    ensures Derived(w'.metadata) == Derived(w.metadata) <==> Derived(w.metadata).Some?
    ensures Derived(w.metadata) == None ==> Derived(w'.metadata) == Some(UPGRADE_SCRIPT)
  {
    if u.originalUrl.Some? {
      AttemptKeepsScript(u, Prepare, w, trace, w');
    } else {
      PrepareIsAChain(u, trace);
      assert PrepareOps(u)[..|trace|] == PrepareOps(u);
      UnsavedScript(u, w);
    }
  }

  lemma UnsavedScript(u: Vars, w: World)
    requires u.originalUrl == None && Derived(w.metadata) == None && ApplyAll(w, PrepareOps(u)).Some?
    ensures Derived(ApplyAll(w, PrepareOps(u)).value.metadata) == Some(UPGRADE_SCRIPT)
  {
    var disks := PrepareHead(u) + PrepareDisks(u);
    DisksThenScript(u);
    ApplyAllConcat(w, disks, [SetScript(u)]);
    MetadataUntouched(w, disks);
    ApplyOne(ApplyAll(w, disks).value, SetScript(u));
    ScriptWithoutBackup(u, w.metadata);
  }

  lemma DisksThenScript(u: Vars)
    requires u.originalUrl == None
    ensures var disks := PrepareHead(u) + PrepareDisks(u);
      PrepareOps(u) == disks + [SetScript(u)] && forall i | 0 <= i < |disks| :: !disks[i].UpdateMetadata?
  {
  }

  lemma ScriptWithoutBackup(u: Vars, m: map<string, string>)
    requires Derived(m) == None
    ensures Derived(m + SetScript(u).entries) == Some(UPGRADE_SCRIPT)
  {
    KeysDiffer();
  }
}
