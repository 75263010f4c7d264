/**
 The bounded history of SnapshotStore in scripts/coverage/coverage_hotspots.py: merged,
 truncated and written to a file at every save, it is always the end of the run-length
 encoding of everything ever saved.
 */
module SnapshotStores {
  import opened Wrappers
  import opened Snapshots

  // ---------------------------------------------------------------- one save

  /** A repeated result: time and git of the new snapshot, everything else of the first. */
  function Merge(last: Snapshot, x: Snapshot): Snapshot {
    last.(savedAt := x.savedAt, git := x.git, repeatCount := last.repeatCount + 1)
  }

  function Step(lib: Library, history: seq<Snapshot>, x: Snapshot): seq<Snapshot> {
    if history != [] && Signature(lib, history[|history| - 1]) == Signature(lib, x)
    then history[..|history| - 1] + [Merge(history[|history| - 1], x)]
    else history + [x]
  }

  /** The history is the end of all entries: at most n of them, and all of them when n sets no limit. */
  ghost predicate KeepsLast(n: int, all: seq<Snapshot>, history: seq<Snapshot>) {
    && (exists front: seq<Snapshot> :: all == front + history)
    && |history| == (if 0 < n < |all| then n else |all|)
  }

  lemma LastNKeeps(n: int, all: seq<Snapshot>)
    ensures KeepsLast(n, all, LastN(n, all))
  {
    var kept := LastN(n, all);
    assert all == all[..|all| - |kept|] + kept;
  }

  /** The last n entries, or all of them when n sets no limit. */
  function LastN(n: int, history: seq<Snapshot>): seq<Snapshot> {
    if 0 < n < |history| then history[|history| - n..] else history
  }

  /** The last entry after a save: the snapshot itself, or the last one before it with a new time, git and count. */
  ghost predicate Records(lib: Library, before: seq<Snapshot>, x: Snapshot, last: Snapshot) {
    if before != [] && Signature(lib, before[|before| - 1]) == Signature(lib, x) then
      var prior := before[|before| - 1];
      && last.savedAt == x.savedAt && last.git == x.git && last.repeatCount == prior.repeatCount + 1
      && last.gate == prior.gate && last.selectedFiles == prior.selectedFiles && last.sha256 == prior.sha256
      && last.belowGate == prior.belowGate && last.functionRows == prior.functionRows
    else last == x
  }

  // ---------------------------------------------------------------- run-length encoding, offline

  /** Length of the first maximal run of one signature. */
  function RunLength(lib: Library, s: seq<Snapshot>): (k: nat)
    requires s != []
    ensures 1 <= k <= |s|
    ensures forall i :: 0 <= i < k ==> Signature(lib, s[i]) == Signature(lib, s[0])
    ensures k < |s| ==> Signature(lib, s[k]) != Signature(lib, s[0])
  {
    if |s| == 1 || Signature(lib, s[1]) != Signature(lib, s[0]) then 1
    else
      var k := RunLength(lib, s[1..]);
      assert forall i :: 1 <= i < k + 1 ==> s[i] == s[1..][i - 1];
      k + 1
  }

  /** One entry for a run: fields of its first snapshot, time and git of its last, and its length. */
  function Collapse(run: seq<Snapshot>): Snapshot
    requires run != []
  {
    var last := run[|run| - 1];
    run[0].(savedAt := last.savedAt, git := last.git, repeatCount := run[0].repeatCount + |run| - 1)
  }

  function Encode(lib: Library, s: seq<Snapshot>): seq<Snapshot> {
    if s == [] then []
    else
      var k := RunLength(lib, s);
      [Collapse(s[..k])] + Encode(lib, s[k..])
  }

  lemma RunLengthUnique(lib: Library, s: seq<Snapshot>, k: nat)
    requires s != [] && 1 <= k <= |s|
    requires forall i :: 0 <= i < k ==> Signature(lib, s[i]) == Signature(lib, s[0])
    requires k < |s| ==> Signature(lib, s[k]) != Signature(lib, s[0])
    ensures RunLength(lib, s) == k
  {
    hide Signature, RunLength;
  }

  lemma OneEntry(lib: Library, x: Snapshot)
    ensures Encode(lib, [x]) == [x]
  {
    assert [x][..1] == [x] && [x][1..] == [];
    assert Collapse([x]) == x;
  }

  /** One more snapshot extends the encoding as a save does. */
  lemma {:induction false} EncodeSnoc(lib: Library, s: seq<Snapshot>, x: Snapshot)
    ensures Encode(lib, s + [x]) == Step(lib, Encode(lib, s), x)
    decreases |s|
  {
    hide Signature, RunLength;
    OneEntry(lib, x);
    if s == [] {
      assert s + [x] == [x];
    } else {
      var k := RunLength(lib, s);
      if k < |s| {
        assert forall i :: 0 <= i < |s| ==> (s + [x])[i] == s[i];
        RunLengthUnique(lib, s + [x], k);
        assert (s + [x])[..k] == s[..k] && (s + [x])[k..] == s[k..] + [x];
        EncodeSnoc(lib, s[k..], x);
        StepOnTail(lib, Collapse(s[..k]), Encode(lib, s[k..]), x);
      } else {
        EncodeLastRun(lib, s, x);
      }
    }
  }

  function TotalCount(history: seq<Snapshot>): int {
    if history == [] then 0 else TotalCount(history[..|history| - 1]) + history[|history| - 1].repeatCount
  }

  /** No save is lost: the counts of the encoding add up to the number of saves. */
  lemma {:induction false} CountsAddUp(lib: Library, saves: seq<Snapshot>)
    requires forall i :: 0 <= i < |saves| ==> saves[i].repeatCount == 1
    ensures TotalCount(Encode(lib, saves)) == |saves|
    decreases |saves|
  {
    hide Signature, RunLength;
    if saves != [] {
      var init, x := saves[..|saves| - 1], saves[|saves| - 1];
      assert saves == init + [x];
      CountsAddUp(lib, init);
      EncodeSnoc(lib, init, x);
      hide Encode;
      var before := Encode(lib, init);
      assert (before + [x])[..|before|] == before;
      if before != [] {
        var merged := before[..|before| - 1] + [Merge(before[|before| - 1], x)];
        assert merged[..|before| - 1] == before[..|before| - 1];
      }
    }
  }

  lemma StepOnTail(lib: Library, head: Snapshot, tail: seq<Snapshot>, x: Snapshot)
    requires tail != []
    ensures Step(lib, [head] + tail, x) == [head] + Step(lib, tail, x)
  {
    hide Signature;
    assert ([head] + tail)[..|tail|] == [head] + tail[..|tail| - 1];
  }

  lemma EncodeOneRun(lib: Library, s: seq<Snapshot>)
    requires s != [] && RunLength(lib, s) == |s|
    ensures Encode(lib, s) == [Collapse(s)]
    ensures Signature(lib, Collapse(s)) == Signature(lib, s[0])
  {
    assert s[..|s|] == s && s[|s|..] == [];
  }

  /** The case where all snapshots so far are one run. */
  lemma EncodeLastRun(lib: Library, s: seq<Snapshot>, x: Snapshot)
    requires s != [] && RunLength(lib, s) == |s|
    ensures Encode(lib, s + [x]) == Step(lib, Encode(lib, s), x)
  {
    EncodeOneRun(lib, s);
    if Signature(lib, x) == Signature(lib, s[0]) {
      RunGrows(lib, s, x);
    } else {
      RunEnds(lib, s, x);
    }
  }

  lemma CollapseGrows(s: seq<Snapshot>, x: Snapshot)
    requires s != []
    ensures Collapse(s + [x]) == Merge(Collapse(s), x)
  {
  }

  lemma RunGrows(lib: Library, s: seq<Snapshot>, x: Snapshot)
    requires s != [] && RunLength(lib, s) == |s| && Signature(lib, x) == Signature(lib, s[0])
    ensures Encode(lib, s + [x]) == [Merge(Collapse(s), x)]
  {
    hide Signature, RunLength, Encode;
    var more := s + [x];
    assert more[0] == s[0] && more[|s|] == x;
    forall i | 0 <= i < |more|
      ensures Signature(lib, more[i]) == Signature(lib, more[0])
    {
      assert i < |s| ==> more[i] == s[i];
    }
    hide Collapse, Merge;
    RunLengthUnique(lib, more, |more|);
    EncodeOneRun(lib, more);
    CollapseGrows(s, x);
  }

  lemma RunEnds(lib: Library, s: seq<Snapshot>, x: Snapshot)
    requires s != [] && RunLength(lib, s) == |s| && Signature(lib, x) != Signature(lib, s[0])
    ensures Encode(lib, s + [x]) == [Collapse(s), x]
  {
    hide Signature, RunLength;
    RunLengthUnique(lib, s + [x], |s|);
    assert (s + [x])[..|s|] == s && (s + [x])[|s|..] == [x];
    OneEntry(lib, x);
  }

  /** Truncating before a save makes no difference to what is kept after it. */
  lemma TruncateFirst(lib: Library, n: int, history: seq<Snapshot>, x: Snapshot)
    ensures LastN(n, Step(lib, LastN(n, history), x)) == LastN(n, Step(lib, history, x))
  {
    hide Signature;
    if 0 < n < |history| {
      var kept := LastN(n, history);
      assert kept[|kept| - 1] == history[|history| - 1];
      if Signature(lib, history[|history| - 1]) == Signature(lib, x) {
        assert LastN(n, Step(lib, history, x)) == Step(lib, kept, x);
      } else {
        assert Step(lib, kept, x)[1..] == (history + [x])[|history| + 1 - n..];
      }
    }
  }

  // ---------------------------------------------------------------- adjacent entries

  /** No two neighbours have the same signature. */
  ghost predicate Distinct(lib: Library, history: seq<Snapshot>) {
    forall i :: 0 < i < |history| ==> Signature(lib, history[i - 1]) != Signature(lib, history[i])
  }

  lemma SaveKeepsDistinct(lib: Library, n: int, history: seq<Snapshot>, x: Snapshot)
    requires Distinct(lib, history)
    ensures Distinct(lib, LastN(n, Step(lib, history, x)))
  {
    if history != [] {
      MergeKeepsSignature(lib, history[|history| - 1], x);
    }
    hide Signature;
  }

  lemma MergeKeepsSignature(lib: Library, last: Snapshot, x: Snapshot)
    ensures Signature(lib, Merge(last, x)) == Signature(lib, last)
  {
  }

  /** A history without equal neighbours is its own encoding. */
  lemma {:induction false} DistinctEncodesItself(lib: Library, history: seq<Snapshot>)
    requires Distinct(lib, history)
    ensures Encode(lib, history) == history
    decreases |history|
  {
    if history != [] {
      var init, x := history[..|history| - 1], history[|history| - 1];
      assert history == init + [x];
      assert Distinct(lib, init);
      hide Signature;
      DistinctEncodesItself(lib, init);
      EncodeSnoc(lib, init, x);
    }
  }

  // ---------------------------------------------------------------- a loaded history

  /** A loaded history, whatever it holds, followed by saves: they extend its last entry or follow it. */
  function Extended(lib: Library, loaded: seq<Snapshot>, saves: seq<Snapshot>): seq<Snapshot> {
    if loaded == [] then Encode(lib, saves)
    else
      var n := |loaded| - 1;
      loaded[..n] + Encode(lib, [loaded[n]] + saves)
  }

  lemma ExtendedByNothing(lib: Library, loaded: seq<Snapshot>)
    ensures Extended(lib, loaded, []) == loaded
  {
    if loaded != [] {
      OneEntry(lib, loaded[|loaded| - 1]);
      assert [loaded[|loaded| - 1]] + [] == [loaded[|loaded| - 1]];
    }
  }

  lemma StepAtEnd(lib: Library, front: seq<Snapshot>, rest: seq<Snapshot>, x: Snapshot)
    requires rest != []
    ensures Step(lib, front + rest, x) == front + Step(lib, rest, x)
  {
    hide Signature;
    assert (front + rest)[..|front + rest| - 1] == front + rest[..|rest| - 1];
  }

  /** One more save. */
  lemma ExtendedSnoc(lib: Library, loaded: seq<Snapshot>, saves: seq<Snapshot>, x: Snapshot)
    ensures Extended(lib, loaded, saves + [x]) == Step(lib, Extended(lib, loaded, saves), x)
  {
    hide Step, Encode;
    if loaded == [] {
      EncodeSnoc(lib, saves, x);
    } else {
      var n := |loaded| - 1;
      EncodeSnoc(lib, [loaded[n]] + saves, x);
      assert [loaded[n]] + (saves + [x]) == [loaded[n]] + saves + [x];
      EncodedSome(lib, [loaded[n]] + saves);
      StepAtEnd(lib, loaded[..n], Encode(lib, [loaded[n]] + saves), x);
    }
  }

  lemma EncodedSome(lib: Library, s: seq<Snapshot>)
    requires s != []
    ensures Encode(lib, s) != []
  {
  }

  /** Over a history without equal neighbours that is the encoding of both together. */
  lemma {:induction false} ExtendedEncodes(lib: Library, loaded: seq<Snapshot>, saves: seq<Snapshot>)
    requires Distinct(lib, loaded)
    ensures Extended(lib, loaded, saves) == Encode(lib, loaded + saves)
    decreases |saves|
  {
    hide Signature, Step, Encode, Extended, Distinct;
    if saves == [] {
      ExtendedByNothing(lib, loaded);
      DistinctEncodesItself(lib, loaded);
      assert loaded + [] == loaded;
    } else {
      var init, x := saves[..|saves| - 1], saves[|saves| - 1];
      assert saves == init + [x];
      assert loaded + saves == loaded + init + [x];
      ExtendedEncodes(lib, loaded, init);
      ExtendedSnoc(lib, loaded, init, x);
      EncodeSnoc(lib, loaded + init, x);
    }
  }

  // ---------------------------------------------------------------- the file

  function Dicts(history: seq<Snapshot>): (list: seq<Json>)
    ensures |list| == |history|
    ensures forall i :: 0 <= i < |history| ==> list[i] == ToDict(history[i])
  {
    seq(|history|, i requires 0 <= i < |history| => ToDict(history[i]))
  }

  function PayloadOf(history: seq<Snapshot>): Json
    requires history != []
  {
    Object(map["history" := Array(Dicts(history)), "latest" := ToDict(history[|history| - 1])])
  }

  /** The file holds the JSON form of every entry, in order, and of the latest. */
  ghost predicate Written(content: Option<Json>, history: seq<Snapshot>)
    requires history != []
  {
    && content.Some? && content.value.Object? && content.value.fields.Keys == {"history", "latest"}
    && content.value.fields["latest"] == ToDict(history[|history| - 1])
    && content.value.fields["history"].Array?
    && var items := content.value.fields["history"].items;
       |items| == |history| && forall i :: 0 <= i < |items| ==> items[i] == ToDict(history[i])
  }

  lemma PayloadIsWritten(history: seq<Snapshot>)
    requires history != []
    ensures Written(Some(PayloadOf(history)), history)
  {
    hide ToDict;
  }

  /** The objects of a history list; None where one of them does not convert. */
  function FromDicts(lib: Library, items: seq<Json>): Option<seq<Snapshot>> {
    if items == [] then Some([])
    else if !items[0].Object? then FromDicts(lib, items[1..])
    else
      match (FromDict(lib, items[0].fields), FromDicts(lib, items[1..]))
      case (Some(s), Some(rest)) => Some([s] + rest)
      case _ => None
  }

  /** What loading makes of a file: missing, a history list, or a single snapshot; None where it raises. */
  function Parse(lib: Library, content: Option<Json>): Option<seq<Snapshot>> {
    match content
    case None => Some([])
    case Some(payload) =>
      if !payload.Object? then None
      else if Get(payload.fields, "history", Array([])).Array? then
        FromDicts(lib, Get(payload.fields, "history", Array([])).items)
      else
        match FromDict(lib, payload.fields)
        case None => None
        case Some(s) => Some([s])
  }

  lemma {:induction false} DictsRoundTrip(lib: Library, history: seq<Snapshot>)
    ensures FromDicts(lib, Dicts(history)) == Some(history)
  {
    hide FromDict, ToDict;
    if history == [] {
      assert Dicts(history) == [];
    } else {
      DictsRoundTrip(lib, history[1..]);
      RoundTrip(lib, history[0]);
      IsObject(history[0]);
      assert Dicts(history)[0] == ToDict(history[0]) && Dicts(history)[1..] == Dicts(history[1..]);
      assert history == [history[0]] + history[1..];
    }
  }

  lemma IsObject(s: Snapshot)
    ensures ToDict(s).Object?
  {
  }

  /** What one item of a list loads as: nothing if it is no object. */
  lemma LoadsItem(lib: Library, item: Json)
    ensures !item.Object? ==> FromDicts(lib, [item]) == Some([])
    ensures item.Object? && FromDict(lib, item.fields).Some? ==>
      FromDicts(lib, [item]) == Some([FromDict(lib, item.fields).value])
    ensures item.Object? && FromDict(lib, item.fields).None? ==> FromDicts(lib, [item]) == None
  {
    hide FromDict;
    assert [item][1..] == [];
    assert FromDicts(lib, []) == Some([]);
    if item.Object? && FromDict(lib, item.fields).Some? {
      assert [FromDict(lib, item.fields).value] + [] == [FromDict(lib, item.fields).value];
    }
  }

  /** Items load one by one, in order; if one of them raises, loading does. */
  lemma {:induction false} LoadsInOrder(lib: Library, a: seq<Json>, b: seq<Json>)
    ensures FromDicts(lib, a + b).Some? <==> FromDicts(lib, a).Some? && FromDicts(lib, b).Some?
    ensures FromDicts(lib, a + b).Some? ==>
      FromDicts(lib, a + b).value == FromDicts(lib, a).value + FromDicts(lib, b).value
  {
    hide FromDict;
    if a == [] {
      assert a + b == b;
      if FromDicts(lib, b).Some? {
        assert [] + FromDicts(lib, b).value == FromDicts(lib, b).value;
      }
    } else {
      assert (a + b)[0] == a[0] && (a + b)[1..] == a[1..] + b;
      LoadsInOrder(lib, a[1..], b);
      if FromDicts(lib, a).Some? && FromDicts(lib, b).Some? && a[0].Object? {
        var s, rest, more := FromDict(lib, a[0].fields).value, FromDicts(lib, a[1..]).value, FromDicts(lib, b).value;
        assert ([s] + rest) + more == [s] + (rest + more);
      }
    }
  }

  /** What each kind of file content loads as: a list under "history" counts before anything else. */
  lemma LoadsAs(lib: Library, payload: Json)
    ensures Parse(lib, None) == Some([])
    ensures !payload.Object? ==> Parse(lib, Some(payload)) == None
    ensures payload.Object? && "history" !in payload.fields ==> Parse(lib, Some(payload)) == Some([])
    ensures payload.Object? && "history" in payload.fields && payload.fields["history"].Array? ==>
      Parse(lib, Some(payload)) == FromDicts(lib, payload.fields["history"].items)
    ensures payload.Object? && "history" in payload.fields && !payload.fields["history"].Array? ==>
      Parse(lib, Some(payload)) ==
        if FromDict(lib, payload.fields).Some? then Some([FromDict(lib, payload.fields).value]) else None
  {
    hide FromDict;
  }

  /** Loading what a save wrote gives the saved history. */
  lemma ReloadIsSame(lib: Library, history: seq<Snapshot>)
    requires history != []
    ensures Parse(lib, Some(PayloadOf(history))) == Some(history)
  {
    DictsRoundTrip(lib, history);
    hide FromDicts, Dicts, ToDict;
  }

  class StateFile {
    var content: Option<Json>

    constructor (content: Option<Json>)
      ensures this.content == content
    {
      this.content := content;
    }
  }

  class SnapshotStore {
    const lib: Library
    const file: StateFile
    var history: seq<Snapshot>

    constructor (lib: Library, file: StateFile)
      ensures this.lib == lib && this.file == file && history == []
    {
      this.lib, this.file, history := lib, file, [];
    }

    method Load() returns (raised: bool)
      modifies this`history
      ensures match Parse(lib, file.content)
        case None => raised
        case Some(h) => !raised && history == h
    {
      hide FromDict, FromDicts;
      if file.content == None {
        history := [];
        return false;
      }
      var payload := file.content.value;
      if !payload.Object? {
        return true;
      }
      var raw := Get(payload.fields, "history", Array([]));
      if raw.Array? {
        var items := FromDicts(lib, raw.items);
        if items == None {
          return true;
        }
        history := items.value;
        return false;
      }
      var single := FromDict(lib, payload.fields);
      if single == None {
        return true;
      }
      history := [single.value];
      return false;
    }

    method Save(snapshot: Snapshot, historySize: int)
      modifies this`history, file`content
      ensures history == LastN(historySize, Step(lib, old(history), snapshot))
      ensures KeepsLast(historySize, Step(lib, old(history), snapshot), history)
      ensures history != [] && Records(lib, old(history), snapshot, history[|history| - 1])
      ensures file.content == Some(PayloadOf(history)) && Written(file.content, history)
      ensures Distinct(lib, old(history)) ==> Distinct(lib, history)
    {
      hide Signature, Distinct, PayloadOf, ToDict, KeepsLast, Written;
      if Distinct(lib, history) {
        SaveKeepsDistinct(lib, historySize, history, snapshot);
      }
      var n := |history|;
      if n > 0 && Signature(lib, history[n - 1]) == Signature(lib, snapshot) {
        var last := history[n - 1];
        history := history[n - 1 := Snapshot(snapshot.savedAt, last.gate, last.selectedFiles, last.belowGate,
          last.functionRows, last.sha256, snapshot.git, last.repeatCount + 1)];
      } else {
        history := history + [snapshot];
      }
      if historySize > 0 && |history| > historySize {
        history := history[|history| - historySize..];
      }
      file.content := Some(PayloadOf(history));
      LastNKeeps(historySize, Step(lib, old(history), snapshot));
      PayloadIsWritten(history);
    }
  }

  /** A new store on a file; null where loading raises. */
  method OpenStore(lib: Library, file: StateFile) returns (store: SnapshotStore?)
    ensures match Parse(lib, file.content)
      case None => store == null
      case Some(h) => store != null && fresh(store) && store.lib == lib && store.file == file && store.history == h
  {
    var created := new SnapshotStore(lib, file);
    var raised := created.Load();
    return if raised then null else created;
  }

  /**
   Saves with one history size, the store being reopened before some of them: the history is
   the end of the run-length encoding of the loaded history's last entry and all saves, after
   the rest of the loaded history.
   */
  method SaveAll(lib: Library, file: StateFile, saves: seq<Snapshot>, reopen: seq<bool>, n: int)
    returns (store: SnapshotStore)
    requires |reopen| == |saves| && Parse(lib, file.content).Some?
    modifies file
    ensures var loaded := Parse(lib, old(file.content)).value;
      && store.history == (if saves == [] then loaded else LastN(n, Extended(lib, loaded, saves)))
      && (saves != [] ==> KeepsLast(n, Extended(lib, loaded, saves), store.history))
      && (saves != [] && Distinct(lib, loaded) ==> KeepsLast(n, Encode(lib, loaded + saves), store.history))
      && (Distinct(lib, loaded) ==> Distinct(lib, store.history))
    ensures if saves == [] then file.content == old(file.content)
      else store.history != [] && file.content == Some(PayloadOf(store.history)) && Written(file.content, store.history)
  {
    hide Parse, PayloadOf, Encode, Step, Distinct, Signature, Extended, KeepsLast, LastN, Written, Records;
    var start := OpenStore(lib, file);
    store := start;
    ghost var loaded := Parse(lib, file.content).value;
    ExtendedByNothing(lib, loaded);
    for i := 0 to |saves|
      invariant fresh(store) && store.lib == lib && store.file == file
      invariant Distinct(lib, loaded) ==> Distinct(lib, store.history)
      invariant i == 0 ==> store.history == loaded == Extended(lib, loaded, saves[..i])
      invariant i > 0 ==> store.history == LastN(n, Extended(lib, loaded, saves[..i]))
      invariant i > 0 ==> store.history != [] && file.content == Some(PayloadOf(store.history))
      invariant i == 0 ==> file.content == old(file.content) && Parse(lib, file.content) == Some(store.history)
    {
      if reopen[i] {
        if i > 0 {
          ReloadIsSame(lib, store.history);
        }
        var again := OpenStore(lib, file);
        store := again;
      }
      assert saves[..i + 1] == saves[..i] + [saves[i]];
      ExtendedSnoc(lib, loaded, saves[..i], saves[i]);
      TruncateFirst(lib, n, Extended(lib, loaded, saves[..i]), saves[i]);
      store.Save(saves[i], n);
    }
    assert saves[..|saves|] == saves;
    if saves != [] {
      LastNKeeps(n, Extended(lib, loaded, saves));
      PayloadIsWritten(store.history);
      if Distinct(lib, loaded) {
        ExtendedEncodes(lib, loaded, saves);
      }
    }
  }

  // ---------------------------------------------------------------- reading the history

  /** The latest entry whose signature differs from the current one. */
  method PickLastDistinct(lib: Library, history: seq<Snapshot>, current: Snapshot) returns (found: Option<Snapshot>)
    ensures found == None ==>
      forall i :: 0 <= i < |history| ==> Signature(lib, history[i]) == Signature(lib, current)
    ensures found.Some? ==> exists i ::
      && 0 <= i < |history| && found.value == history[i]
      && Signature(lib, history[i]) != Signature(lib, current)
      && forall j :: i < j < |history| ==> Signature(lib, history[j]) == Signature(lib, current)
    ensures Distinct(lib, history) ==>
      found == if history == [] then None
        else if Signature(lib, history[|history| - 1]) != Signature(lib, current) then Some(history[|history| - 1])
        else if |history| > 1 then Some(history[|history| - 2])
        else None
  {
    hide Signature;
    for i := |history| downto 0
      invariant forall j :: i <= j < |history| ==> Signature(lib, history[j]) == Signature(lib, current)
    {
      if Signature(lib, history[i]) != Signature(lib, current) {
        return Some(history[i]);
      }
    }
    return None;
  }
}
