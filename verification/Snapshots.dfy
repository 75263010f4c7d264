/**
 Coverage snapshots of scripts/coverage/coverage_hotspots.py: their JSON form, and the
 sorted signature by which two of them count as the same result.
 */
module Snapshots {
  import opened Wrappers

  datatype Json =
    | Null
    | Flag(flag: bool)
    | Number(number: real)
    | Text(text: string)
    | Array(items: seq<Json>)
    | Object(fields: map<string, Json>)

  datatype FunctionCoverage = FunctionCoverage(percent: real, name: string)

  /** The values of the git object are taken over without a type check. */
  datatype GitMeta = GitMeta(available: Json, head: Json, dirty: Json, statusCount: Json, statusDigest: Json)

  datatype Snapshot = Snapshot(
    savedAt: string, gate: real, selectedFiles: seq<string>,
    belowGate: seq<FunctionCoverage>, functionRows: seq<FunctionCoverage>,
    sha256: string, git: GitMeta, repeatCount: int)

  /** Conversions left uninterpreted: str of a non-text, parsing numbers, key order, round to a tenth. */
  datatype Library = Library(
    show: Json -> string, parseFloat: string -> Option<real>, parseInt: string -> Option<int>,
    keys: map<string, Json> -> seq<string>, round1: real -> real)

  // ---------------------------------------------------------------- to_dict

  function RowToDict(row: FunctionCoverage): Json {
    Object(map["pct" := Number(row.percent), "name" := Text(row.name)])
  }

  function RowsToDict(rows: seq<FunctionCoverage>): (list: seq<Json>)
    ensures |list| == |rows|
    ensures forall i :: 0 <= i < |rows| ==> list[i] == RowToDict(rows[i])
  {
    seq(|rows|, i requires 0 <= i < |rows| => RowToDict(rows[i]))
  }

  function Texts(strings: seq<string>): (list: seq<Json>)
    ensures |list| == |strings|
    ensures forall i :: 0 <= i < |strings| ==> list[i] == Text(strings[i])
  {
    seq(|strings|, i requires 0 <= i < |strings| => Text(strings[i]))
  }

  function GitToDict(git: GitMeta): Json {
    Object(map["available" := git.available, "head" := git.head, "dirty" := git.dirty,
      "status_count" := git.statusCount, "status_digest" := git.statusDigest])
  }

  function ToDict(s: Snapshot): Json {
    Object(map[
      "saved_at" := Text(s.savedAt),
      "gate" := Number(s.gate),
      "selected_files" := Array(Texts(s.selectedFiles)),
      "below_gate" := Array(RowsToDict(s.belowGate)),
      "below_gate_count" := Number(|s.belowGate| as real),
      "function_rows" := Array(RowsToDict(s.functionRows)),
      "coverage_profile_sha256" := Text(s.sha256),
      "git" := GitToDict(s.git),
      "repeat_count" := Number(s.repeatCount as real)])
  }

  // ---------------------------------------------------------------- from_dict; None where it raises

  function Get(data: map<string, Json>, key: string, default: Json): Json {
    if key in data then data[key] else default
  }

  function Str(lib: Library, j: Json): string {
    if j.Text? then j.text else lib.show(j)
  }

  function Float(lib: Library, j: Json): Option<real> {
    match j
    case Number(x) => Some(x)
    case Flag(b) => Some(if b then 1.0 else 0.0)
    case Text(s) => lib.parseFloat(s)
    case _ => None
  }

  /** int() drops the fraction, toward zero. */
  function Int(lib: Library, j: Json): Option<int> {
    match j
    case Number(x) => Some(if x >= 0.0 then x.Floor else -((-x).Floor))
    case Flag(b) => Some(if b then 1 else 0)
    case Text(s) => lib.parseInt(s)
    case _ => None
  }

  /** What a for loop over the value sees. */
  function Items(lib: Library, j: Json): Option<seq<Json>> {
    match j
    case Array(items) => Some(items)
    case Object(fields) => Some(Texts(lib.keys(fields)))
    case Text(s) => Some(seq(|s|, i requires 0 <= i < |s| => Text([s[i]])))
    case _ => None
  }

  function Strings(lib: Library, items: seq<Json>): (r: seq<string>)
    ensures |r| == |items| && forall i :: 0 <= i < |items| ==> r[i] == Str(lib, items[i])
  {
    seq(|items|, i requires 0 <= i < |items| => Str(lib, items[i]))
  }

  predicate Contains(s: string, part: string) {
    |part| <= |s| && (s[..|part|] == part || (s != [] && Contains(s[1..], part)))
  }

  /** "key in item": a key, an element or a part; None where the test raises. */
  function Has(item: Json, key: string): Option<bool> {
    match item
    case Object(fields) => Some(key in fields)
    case Array(items) => Some(Text(key) in items)
    case Text(s) => Some(Contains(s, key))
    case _ => None
  }

  /** The row of one item: None where it raises, Some(None) where the item is skipped. */
  function RowOf(lib: Library, item: Json): Option<Option<FunctionCoverage>> {
    match (Has(item, "pct"), Has(item, "name"))
    case (Some(true), Some(true)) => (
      if !item.Object? then None
      else
        match Float(lib, item.fields["pct"])
        case None => None
        case Some(pct) => Some(Some(FunctionCoverage(pct, Str(lib, item.fields["name"])))))
    case (Some(_), Some(_)) => Some(None)
    case _ => None
  }

  function RowsOf(lib: Library, items: seq<Json>): Option<seq<FunctionCoverage>> {
    if items == [] then Some([])
    else
      match (RowOf(lib, items[0]), RowsOf(lib, items[1..]))
      case (Some(Some(row)), Some(rest)) => Some([row] + rest)
      case (Some(None), Some(rest)) => Some(rest)
      case _ => None
  }

  function RowsFrom(lib: Library, j: Json): Option<seq<FunctionCoverage>> {
    match Items(lib, j)
    case None => None
    case Some(items) => RowsOf(lib, items)
  }

  const GIT_KEYS := {"available", "head", "dirty", "status_count", "status_digest"}

  /** GitMeta(**value): keyword arguments, available being required. */
  function GitFrom(j: Json): Option<GitMeta> {
    if !j.Object? || !(j.fields.Keys <= GIT_KEYS) || "available" !in j.fields then None
    else
      Some(GitMeta(j.fields["available"], Get(j.fields, "head", Text("")), Get(j.fields, "dirty", Flag(false)),
        Get(j.fields, "status_count", Number(0.0)), Get(j.fields, "status_digest", Text(""))))
  }

  function FromDict(lib: Library, data: map<string, Json>): Option<Snapshot> {
    match (Float(lib, Get(data, "gate", Number(0.0))),
           Items(lib, Get(data, "selected_files", Array([]))),
           RowsFrom(lib, Get(data, "below_gate", Array([]))),
           RowsFrom(lib, Get(data, "function_rows", Array([]))),
           GitFrom(Get(data, "git", Object(map["available" := Flag(false)]))),
           Int(lib, Get(data, "repeat_count", Number(1.0))))
    case (Some(gate), Some(files), Some(below), Some(rows), Some(git), Some(repeat)) =>
      Some(Snapshot(Str(lib, Get(data, "saved_at", Text(""))), gate, Strings(lib, files), below, rows,
        Str(lib, Get(data, "coverage_profile_sha256", Text(""))), git, repeat))
    case _ => None
  }

  lemma {:induction false} RowsRoundTrip(lib: Library, rows: seq<FunctionCoverage>)
    ensures RowsOf(lib, RowsToDict(rows)) == Some(rows)
  {
    if rows == [] {
      assert RowsToDict(rows) == [];
    } else {
      RowsRoundTrip(lib, rows[1..]);
      assert RowsToDict(rows)[0] == RowToDict(rows[0]);
      assert RowsToDict(rows)[1..] == RowsToDict(rows[1..]);
      var fields := RowToDict(rows[0]).fields;
      assert "pct" in fields && "name" in fields;
      assert rows == [rows[0]] + rows[1..];
    }
  }

  lemma GitRoundTrip(git: GitMeta)
    ensures GitFrom(GitToDict(git)) == Some(git)
  {
    var fields := GitToDict(git).fields;
    assert fields.Keys == GIT_KEYS;
  }

  lemma ScalarsWritten(s: Snapshot)
    ensures var data := ToDict(s).fields;
      && Get(data, "saved_at", Text("")) == Text(s.savedAt)
      && Get(data, "gate", Number(0.0)) == Number(s.gate)
      && Get(data, "coverage_profile_sha256", Text("")) == Text(s.sha256)
      && Get(data, "repeat_count", Number(1.0)) == Number(s.repeatCount as real)
  {
  }

  lemma ListsWritten(s: Snapshot)
    ensures var data := ToDict(s).fields;
      && Get(data, "selected_files", Array([])) == Array(Texts(s.selectedFiles))
      && Get(data, "below_gate", Array([])) == Array(RowsToDict(s.belowGate))
      && Get(data, "function_rows", Array([])) == Array(RowsToDict(s.functionRows))
      && Get(data, "git", Object(map["available" := Flag(false)])) == GitToDict(s.git)
  {
    hide Texts, RowsToDict, GitToDict;
  }

  /** Reading back what was written gives the same snapshot. */
  lemma RoundTrip(lib: Library, s: Snapshot)
    ensures FromDict(lib, ToDict(s).fields) == Some(s)
  {
    assert Strings(lib, Texts(s.selectedFiles)) == s.selectedFiles;
    assert Int(lib, Number(s.repeatCount as real)) == Some(s.repeatCount);
    RowsRoundTrip(lib, s.belowGate);
    RowsRoundTrip(lib, s.functionRows);
    GitRoundTrip(s.git);
    ScalarsWritten(s);
    ListsWritten(s);
    hide ToDict, RowsOf, GitFrom, GitToDict, RowsToDict, Texts, Strings, Int, Get;
  }

  /** Every field has a default. */
  lemma EmptyDict(lib: Library)
    ensures FromDict(lib, map[]) == Some(Snapshot("", 0.0, [], [], [], "",
      GitMeta(Flag(false), Text(""), Flag(false), Number(0.0), Text("")), 1))
  {
    var git := map["available" := Flag(false)];
    assert git.Keys <= GIT_KEYS && "available" in git;
    assert GitFrom(Object(git)) == Some(GitMeta(Flag(false), Text(""), Flag(false), Number(0.0), Text("")));
  }

  /** int() of a number is the integer next to it on the side of zero. */
  lemma IntTowardZero(lib: Library, x: real)
    ensures Int(lib, Number(x)).Some?
    ensures var i := Int(lib, Number(x)).value as real;
      if x >= 0.0 then i <= x < i + 1.0 else i - 1.0 < x <= i
  {
  }

  /** The git object must say whether git is available, and may hold no other keys than the known ones. */
  lemma GitNeeds(j: Json)
    ensures GitFrom(j).Some? <==>
      && j.Object? && "available" in j.fields
      && forall k :: k in j.fields ==> k in {"available", "head", "dirty", "status_count", "status_digest"}
    ensures GitFrom(j).Some? ==> GitFrom(j).value.available == j.fields["available"]
  {
  }

  /** float() takes numbers, truth values and texts that parse; str() leaves a text as it is. */
  lemma Converts(lib: Library, j: Json)
    ensures j.Number? ==> Float(lib, j) == Some(j.number)
    ensures Float(lib, Flag(true)) == Some(1.0) && Float(lib, Flag(false)) == Some(0.0) && Float(lib, Null) == None
    ensures Int(lib, Flag(true)) == Some(1) && Int(lib, Flag(false)) == Some(0) && Int(lib, Null) == None
    ensures j.Text? ==>
      Float(lib, j) == lib.parseFloat(j.text) && Int(lib, j) == lib.parseInt(j.text) && Str(lib, j) == j.text
    ensures j.Array? || j.Object? ==> Float(lib, j) == None && Int(lib, j) == None
  {
  }

  /** A loop over a list sees its items, over an object its keys, over a text its characters. */
  lemma LoopSees(lib: Library, j: Json)
    ensures Items(lib, j).Some? <==> j.Array? || j.Object? || j.Text?
    ensures j.Array? ==> Items(lib, j) == Some(j.items)
    ensures j.Object? ==>
      && |Items(lib, j).value| == |lib.keys(j.fields)|
      && forall i :: 0 <= i < |lib.keys(j.fields)| ==> Items(lib, j).value[i] == Text(lib.keys(j.fields)[i])
    ensures j.Text? ==>
      && |Items(lib, j).value| == |j.text|
      && forall i :: 0 <= i < |j.text| ==> Items(lib, j).value[i] == Text([j.text[i]])
  {
  }

  predicate StandsAt(s: string, part: string, i: nat) {
    i + |part| <= |s| && s[i..i + |part|] == part
  }

  /** The part stands somewhere in the text. */
  lemma {:induction false} ContainsIff(s: string, part: string)
    ensures Contains(s, part) <==> exists i: nat :: StandsAt(s, part, i)
  {
    if StandsAt(s, part, 0) {
      assert Contains(s, part);
    } else if s == [] {
      assert forall i: nat :: !StandsAt(s, part, i);
    } else {
      ContainsIff(s[1..], part);
      forall i: nat
        ensures StandsAt(s[1..], part, i) <==> StandsAt(s, part, i + 1)
      {
        if i + |part| <= |s| - 1 {
          assert s[1..][i..i + |part|] == s[i + 1..i + 1 + |part|];
        }
      }
      if i: nat :| StandsAt(s, part, i) {
        assert StandsAt(s[1..], part, i - 1);
      }
      assert Contains(s, part) <==> Contains(s[1..], part) by {
        assert |part| <= |s| ==> s[0..|part|] == s[..|part|];
      }
    }
  }

  /** Rows are read one by one, and an item that lacks "pct" or "name" is skipped. */
  lemma RowsSkip(lib: Library, items: seq<Json>)
    requires items != [] && items[0].Object?
    ensures var fields, rest := items[0].fields, RowsOf(lib, items[1..]);
      RowsOf(lib, items) ==
        if rest == None then None
        else if "pct" !in fields || "name" !in fields then rest
        else if Float(lib, fields["pct"]) == None then None
        else Some([FunctionCoverage(Float(lib, fields["pct"]).value, Str(lib, fields["name"]))] + rest.value)
  {
  }

  // ---------------------------------------------------------------- signature

  type Pair = (string, real)

  predicate StringLe(a: string, b: string) {
    a == [] || (b != [] && (a[0] < b[0] || (a[0] == b[0] && StringLe(a[1..], b[1..]))))
  }

  predicate PairLe(p: Pair, q: Pair) {
    if p.0 == q.0 then p.1 <= q.1 else StringLe(p.0, q.0)
  }

  lemma {:induction false} StringLeTotal(a: string, b: string)
    ensures StringLe(a, b) || StringLe(b, a)
  {
    if a != [] && b != [] && a[0] == b[0] {
      StringLeTotal(a[1..], b[1..]);
    }
  }

  lemma {:induction false} StringLeAntisymmetric(a: string, b: string)
    requires StringLe(a, b) && StringLe(b, a)
    ensures a == b
  {
    if a != [] && b != [] {
      StringLeAntisymmetric(a[1..], b[1..]);
      assert a == [a[0]] + a[1..] && b == [b[0]] + b[1..];
    }
  }

  lemma {:induction false} StringLeTransitive(a: string, b: string, c: string)
    requires StringLe(a, b) && StringLe(b, c)
    ensures StringLe(a, c)
  {
    if a != [] && a[0] == b[0] && b[0] == c[0] {
      StringLeTransitive(a[1..], b[1..], c[1..]);
    }
  }

  lemma PairLeTransitive(p: Pair, q: Pair, r: Pair)
    requires PairLe(p, q) && PairLe(q, r)
    ensures PairLe(p, r)
  {
    if p.0 != q.0 && q.0 != r.0 {
      StringLeTransitive(p.0, q.0, r.0);
      if p.0 == r.0 {
        StringLeAntisymmetric(p.0, q.0);
      }
    }
  }

  lemma PairLeAntisymmetric(p: Pair, q: Pair)
    requires PairLe(p, q) && PairLe(q, p)
    ensures p == q
  {
    if p.0 != q.0 {
      StringLeAntisymmetric(p.0, q.0);
    }
  }

  function Insert(p: Pair, s: seq<Pair>): seq<Pair> {
    if s == [] || PairLe(p, s[0]) then [p] + s else [s[0]] + Insert(p, s[1..])
  }

  /** Python's sorted on pairs. */
  function Sort(s: seq<Pair>): seq<Pair> {
    if s == [] then [] else Insert(s[0], Sort(s[1..]))
  }

  ghost predicate Ordered(s: seq<Pair>) {
    forall i, j :: 0 <= i < j < |s| ==> PairLe(s[i], s[j])
  }

  lemma {:induction false} InsertBag(p: Pair, s: seq<Pair>)
    ensures multiset(Insert(p, s)) == multiset{p} + multiset(s)
  {
    if s != [] && !PairLe(p, s[0]) {
      InsertBag(p, s[1..]);
      assert s == [s[0]] + s[1..];
    }
  }

  lemma {:induction false} InsertOrdered(p: Pair, s: seq<Pair>)
    requires Ordered(s)
    ensures Ordered(Insert(p, s))
  {
    hide StringLe, PairLe;
    if s == [] {
    } else if PairLe(p, s[0]) {
      forall j | 0 <= j < |s|
        ensures PairLe(p, s[j])
      {
        if j > 0 {
          PairLeTransitive(p, s[0], s[j]);
        }
      }
    } else {
      var rest := Insert(p, s[1..]);
      InsertOrdered(p, s[1..]);
      InsertBag(p, s[1..]);
      PairLeTotal(p, s[0]);
      forall j | 0 <= j < |rest|
        ensures PairLe(s[0], rest[j])
      {
        assert rest[j] in multiset(rest);
      }
    }
  }

  lemma PairLeTotal(p: Pair, q: Pair)
    ensures PairLe(p, q) || PairLe(q, p)
  {
    StringLeTotal(p.0, q.0);
  }

  lemma {:induction false} SortSorts(s: seq<Pair>)
    ensures multiset(Sort(s)) == multiset(s) && Ordered(Sort(s))
  {
    if s != [] {
      SortSorts(s[1..]);
      InsertBag(s[0], Sort(s[1..]));
      InsertOrdered(s[0], Sort(s[1..]));
      assert s == [s[0]] + s[1..];
    }
  }

  lemma {:induction false} OrderedIsUnique(a: seq<Pair>, b: seq<Pair>)
    requires Ordered(a) && Ordered(b) && multiset(a) == multiset(b)
    ensures a == b
  {
    if a == [] {
      assert |multiset(b)| == 0;
    } else {
      assert a[0] in multiset(b);
      assert b != [];
      assert b[0] in multiset(a);
      if a[0] != b[0] {
        PairLeAntisymmetric(a[0], b[0]);
      }
      assert a == [a[0]] + a[1..] && b == [b[0]] + b[1..];
      assert multiset(a[1..]) == multiset(a) - multiset{a[0]};
      OrderedIsUnique(a[1..], b[1..]);
    }
  }

  function Pairs(lib: Library, rows: seq<FunctionCoverage>): (pairs: seq<Pair>)
    ensures |pairs| == |rows|
    ensures forall i :: 0 <= i < |rows| ==> pairs[i].0 == rows[i].name && pairs[i].1 == lib.round1(rows[i].percent)
  {
    seq(|rows|, i requires 0 <= i < |rows| => (rows[i].name, lib.round1(rows[i].percent)))
  }

  function Signature(lib: Library, s: Snapshot): seq<Pair> {
    Sort(Pairs(lib, s.functionRows))
  }

  /** Two snapshots have one signature when their rounded rows are the same up to order. */
  lemma SameSignatureIff(lib: Library, a: Snapshot, b: Snapshot)
    ensures Signature(lib, a) == Signature(lib, b) <==>
      multiset(Pairs(lib, a.functionRows)) == multiset(Pairs(lib, b.functionRows))
  {
    SortSorts(Pairs(lib, a.functionRows));
    SortSorts(Pairs(lib, b.functionRows));
    if multiset(Pairs(lib, a.functionRows)) == multiset(Pairs(lib, b.functionRows)) {
      OrderedIsUnique(Signature(lib, a), Signature(lib, b));
    }
  }
}
