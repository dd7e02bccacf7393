/**
 A table (ethdb/table.go): key/value storage split into named segments.  Mutable
 segments are LevelDB maps; compaction turns old ones into file segments, and a
 write to a compacted segment turns it back.
 */
module Table {
  import opened Bytes
  import opened FileSegment
  import opened Encoder
  import opened Partition

  type DB = map<Bytes, Bytes>

  datatype Status = Ok | ErrImmutable | ErrClosed | ErrIO

  // ---- Sorted segment names ---------------------------------------------------------

  ghost predicate SortedNames(s: seq<string>) {
    forall i, j :: 0 <= i < j < |s| ==> Less(s[i], s[j])
  }

  ghost predicate AtMost(n: string, m: string) {
    n == m || Less(n, m)
  }

  method Place(s: seq<string>, n: string) returns (t: seq<string>)
    requires SortedNames(s) && n !in s
    ensures SortedNames(t) && |t| == |s| + 1 && forall m :: m in t <==> m in s || m == n
  {
    var i := 0;
    while i < |s| && Less(s[i], n)
      invariant 0 <= i <= |s| && forall j :: 0 <= j < i ==> Less(s[j], n)
    {
      i := i + 1;
    }
    InsertSorted(s, i, n);
    t := s[..i] + [n] + s[i..];
  }

  /** The names of a set in increasing order. */
  method Sort(names: set<string>) returns (s: seq<string>)
    ensures SortedNames(s) && (forall n :: n in s <==> n in names) && |s| == |names|
  {
    s := [];
    var rest := names;
    while rest != {}
      invariant rest <= names && SortedNames(s) && |s| + |rest| == |names|
      invariant forall n :: n in s <==> n in names && n !in rest
      decreases rest
    {
      var n :| n in rest;
      s := Place(s, n);
      rest := rest - {n};
    }
  }

  lemma {:induction false} InsertSorted(s: seq<string>, i: nat, n: string)
    requires SortedNames(s) && n !in s && i <= |s|
    requires forall j :: 0 <= j < i ==> Less(s[j], n)
    requires i < |s| ==> !Less(s[i], n)
    ensures SortedNames(s[..i] + [n] + s[i..])
    ensures forall m :: m in s[..i] + [n] + s[i..] <==> m in s || m == n
  {
    var t := s[..i] + [n] + s[i..];
    forall j | i <= j < |s| ensures Less(n, s[j]) {
      LessTotal(n, s[i]);
      if j > i { LessOrder(n, s[i], s[j]); }
    }
    assert s == s[..i] + s[i..];
  }

  /** How many of the names are greater than n. */
  ghost function Above(names: set<string>, n: string): set<string> {
    set m | m in names && Less(n, m)
  }

  lemma {:induction false} AboveSorted(s: seq<string>, names: set<string>, i: nat)
    requires SortedNames(s) && i < |s| && forall n :: n in s <==> n in names
    ensures |Above(names, s[i])| == |s| - 1 - i
  {
    var rest := s[i + 1..];
    forall n ensures n in Above(names, s[i]) <==> n in rest {
      if n in s {
        var j :| 0 <= j < |s| && s[j] == n;
        if j < i { LessOrder(s[j], s[i], s[j]); }
        if j == i { LessOrder(n, n, n); }
        if j > i { assert rest[j - i - 1] == n; }
      }
    }
    SortedSize(rest, Above(names, s[i]));
  }

  lemma {:induction false} SortedSize(s: seq<string>, names: set<string>)
    requires SortedNames(s) && forall n :: n in s <==> n in names
    ensures |s| == |names|
  {
    if s == [] {
      assert names == {};
    } else {
      var rest := names - {s[0]};
      forall n ensures n in s[1..] <==> n in rest {
        if n in s[1..] { LessOrder(s[0], s[0], s[0]); }
      }
      SortedSize(s[1..], rest);
    }
  }

  /** All but the last keep names: those with at least keep names above them. */
  lemma {:induction false} OldestByRank(s: seq<string>, names: set<string>, keep: nat)
    requires SortedNames(s) && forall n :: n in s <==> n in names
    ensures |s| < keep ==> forall n :: n in names ==> |Above(names, n)| < keep
    ensures |s| >= keep ==> SortedNames(s[..|s| - keep])
    ensures |s| >= keep ==> forall n :: n in names ==> (n in s[..|s| - keep] <==> |Above(names, n)| >= keep)
  {
    forall n | n in names
      ensures |s| < keep ==> |Above(names, n)| < keep
      ensures |s| >= keep ==> (n in s[..|s| - keep] <==> |Above(names, n)| >= keep)
    {
      var i :| 0 <= i < |s| && s[i] == n;
      AboveSorted(s, names, i);
      if |s| >= keep && n in s[..|s| - keep] {
        var j :| 0 <= j < |s| - keep && s[j] == n;
        AboveSorted(s, names, j);
      }
    }
  }

  lemma NothingAbove(names: set<string>, n: string)
    requires forall m :: m in names && m != n ==> Less(m, n)
    ensures |Above(names, n)| == 0
  {
    forall m ensures m !in Above(names, n) {
      LessOrder(m, n, m);
    }
    assert Above(names, n) == {};
  }

  // ---- Runs ---------------------------------------------------------------------------------

  datatype Op =
    | DoGet(key: Bytes)
    | DoPut(key: Bytes, value: Bytes, young: set<string>)
    | DoDelete(key: Bytes)
    | DoCompact(young: set<string>)

  datatype Result = Read(answer: Lookup) | Wrote(status: Status)

  /** An empty value put under an absent key leaves it absent. */
  function AfterPut(m: DB, key: Bytes, value: Bytes): DB {
    if value == [] && key !in m then m else m[key := value]
  }

  /** One map m answers the operation with r and becomes m'. */
  predicate Plays(m: DB, op: Op, r: Result, m': DB) {
    match op
    case DoGet(k) => r == Read(Query(m, k)) && m' == m
    case DoPut(k, v, _) => r.Wrote? && m' == if r.status == Ok then AfterPut(m, k, v) else m
    case DoDelete(k) => r.Wrote? && m' == if r.status == Ok then m - {k} else m
    case DoCompact(_) => r.Wrote? && m' == m
  }

  ghost predicate Replays(m: DB, ops: seq<Op>, rs: seq<Result>, m': DB)
    requires |ops| == |rs|
  {
    if ops == [] then m' == m
    else
      var n := |ops| - 1;
      exists mid :: Replays(m, ops[..n], rs[..n], mid) && Plays(mid, ops[n], rs[n], m')
  }

  lemma {:induction false} ReplayMore(m: DB, ops: seq<Op>, rs: seq<Result>, mid: DB, op: Op, r: Result, m': DB)
    requires |ops| == |rs| && Replays(m, ops, rs, mid) && Plays(mid, op, r, m')
    ensures Replays(m, ops + [op], rs + [r], m')
  {
    assert (ops + [op])[..|ops|] == ops && (rs + [r])[..|rs|] == rs;
  }

  // ---- What the segments stand for ------------------------------------------------------

  /** The fields of a table: mutable segments, file segments and the contents they stand for. */
  datatype View = View(part: Bytes -> string, standsFor: (Bytes, DB) -> bool, active: string,
                       ldb: map<string, DB>, files: map<string, Bytes>, frozen: map<string, DB>)
  {
    ghost function Answer(key: Bytes): Lookup {
      var name := part(key);
      if name in ldb then Query(ldb[name], key)
      else if name in frozen then Query(frozen[name], key)
      else NotFound
    }

    ghost predicate Names() {
      && ldb.Keys !! files.Keys && frozen.Keys == files.Keys
      && forall n :: n in ldb.Keys + files.Keys ==> AtMost(n, active)
    }

    ghost predicate InPlace() {
      && (forall n, k :: n in ldb && k in ldb[n] ==> part(k) == n)
      && (forall n, k :: n in frozen && k in frozen[n] ==> part(k) == n)
    }

    ghost predicate Readable() {
      files.Keys == frozen.Keys && forall n :: n in files ==> standsFor(files[n], frozen[n])
    }

    /** Every lookup is answered as by the one map m. */
    ghost predicate Refines(m: DB) {
      forall k :: Answer(k) == Query(m, k)
    }

    ghost predicate Good(m: DB) {
      Names() && InPlace() && Readable() && Refines(m)
    }
  }

  lemma FreezeGood(v: View, m: DB, name: string, file: Bytes)
    requires v.Good(m) && name in v.ldb && v.standsFor(file, v.ldb[name])
    ensures v.(ldb := v.ldb - {name}, files := v.files[name := file], frozen := v.frozen[name := v.ldb[name]]).Good(m)
  {
    var v' := v.(ldb := v.ldb - {name}, files := v.files[name := file], frozen := v.frozen[name := v.ldb[name]]);
    forall k ensures v'.Answer(k) == v.Answer(k) {}
  }

  lemma ThawGood(v: View, m: DB, name: string, db: DB)
    requires v.Good(m) && name in v.files && db == v.frozen[name]
    ensures v.(ldb := v.ldb[name := db], files := v.files - {name}, frozen := v.frozen - {name}).Good(m)
  {
    var v' := v.(ldb := v.ldb[name := db], files := v.files - {name}, frozen := v.frozen - {name});
    forall k ensures v'.Answer(k) == v.Answer(k) {}
  }

  lemma CreateGood(v: View, m: DB, name: string)
    requires v.Good(m) && name !in v.ldb.Keys + v.files.Keys && !Less(name, v.active)
    ensures v.(ldb := v.ldb[name := map[]], active := name).Good(m)
    ensures forall n :: n in v.ldb ==> Less(n, name)
  {
    var v' := v.(ldb := v.ldb[name := map[]], active := name);
    forall n | n in v.ldb.Keys + v.files.Keys ensures Less(n, name) {
      LessTotal(v.active, name);
      LessOrder(n, v.active, name);
    }
    forall k ensures v'.Answer(k) == v.Answer(k) {}
  }

  lemma PutGood(v: View, m: DB, key: Bytes, value: Bytes)
    requires v.Good(m) && v.part(key) in v.ldb
    ensures v.(ldb := v.ldb[v.part(key) := v.ldb[v.part(key)][key := value]]).Good(m[key := value])
  {
    var v' := v.(ldb := v.ldb[v.part(key) := v.ldb[v.part(key)][key := value]]);
    forall k ensures v'.Answer(k) == Query(m[key := value], k) {
      assert v.Answer(k) == Query(m, k);
    }
  }

  lemma DeleteGood(v: View, m: DB, key: Bytes)
    requires v.Good(m) && v.part(key) in v.ldb
    ensures v.(ldb := v.ldb[v.part(key) := v.ldb[v.part(key)] - {key}]).Good(m - {key})
  {
    var v' := v.(ldb := v.ldb[v.part(key) := v.ldb[v.part(key)] - {key}]);
    forall k ensures v'.Answer(k) == Query(m - {key}, k) {
      assert v.Answer(k) == Query(m, k);
    }
  }

  /** standsFor is the reading of file segments; Look names a file whose reading a proof needs. */
  ghost predicate IsReader(standsFor: (Bytes, DB) -> bool, hash: Hash) {
    forall d, m {:trigger Look(d, m)} :: Look(d, m) && standsFor(d, m) <==> Represents(d, hash, m)
  }

  ghost predicate Look(d: Bytes, m: DB) { true }

  // ---- The table ----------------------------------------------------------------------

  class Table {
    const part: Bytes -> string
    const hash: Hash
    const sum: Bytes -> nat
    const minMutable: nat
    var active: string
    var ldb: map<string, DB>
    var files: map<string, Bytes>
    ghost var frozen: map<string, DB>
    ghost var contents: DB
    ghost const standsFor: (Bytes, DB) -> bool

    ghost function Fields(): View reads this {
      View(part, standsFor, active, ldb, files, frozen)
    }

    ghost predicate Valid() reads this {
      Fields().Good(contents) && IsReader(standsFor, hash)
    }

    constructor (part: Bytes -> string, hash: Hash, sum: Bytes -> nat, minMutable: nat)
      ensures Valid() && contents == map[]
      ensures this.part == part && this.minMutable == minMutable
    {
      this.part, this.hash, this.sum, this.minMutable := part, hash, sum, minMutable;
      active, ldb, files := "", map[], map[];
      frozen, contents := map[], map[];
      standsFor := (d, m) => Represents(d, hash, m);
    }

    /** Also tells whether the key's segment exists. */
    method Get(key: Bytes) returns (r: Lookup, segment: bool)
      requires Valid()
      ensures r == Query(contents, key)
      ensures segment <==> part(key) in ldb.Keys + files.Keys
    {
      var name := part(key);
      assert Fields().Answer(key) == Query(contents, key);
      if name in ldb {
        r, segment := Query(ldb[name], key), true;
      } else if name in files {
        assert Look(files[name], frozen[name]);
        r := FileSegment.Get(files[name], hash, key, frozen[name]);
        segment := true;
      } else {
        r, segment := NotFound, false;
      }
    }

    /** Turns one mutable segment into a file segment. */
    method CompactSegment(name: string) returns (ok: bool)
      requires Valid() && name in ldb
      modifies this
      ensures Valid() && contents == old(contents) && active == old(active)
      ensures ok ==> ldb == old(ldb) - {name} && files.Keys == old(files).Keys + {name}
      ensures !ok ==> ldb == old(ldb) && files == old(files)
    {
      var file;
      ok, file := CompactTo(ldb[name], hash, sum);
      if ok {
        assert Look(file, ldb[name]);
        FreezeGood(Fields(), contents, name, file);
        ghost var v := Fields().(ldb := ldb - {name}, files := files[name := file],
                                 frozen := frozen[name := ldb[name]]);
        files := files[name := file];
        frozen := frozen[name := ldb[name]];
        ldb := ldb - {name};
        assert Fields() == v;
      }
    }

    /** Turns a file segment back into a mutable one. */
    method Uncompact(name: string)
      requires Valid() && name in files
      modifies this
      ensures Valid() && contents == old(contents) && active == old(active)
      ensures ldb == old(ldb)[name := old(frozen)[name]] && files == old(files) - {name}
    {
      assert Look(files[name], frozen[name]);
      var db := UncompactSegmentTo(files[name], hash, frozen[name]);
      ThawGood(Fields(), contents, name, db);
      ldb := ldb[name := db];
      files := files - {name};
      frozen := frozen - {name};
    }

    /** Every segment keeps its contents, some moving to file segments. */
    twostate predicate OnlyCompacted() reads this {
      && contents == old(contents) && active == old(active)
      && ldb.Keys <= old(ldb).Keys && ldb.Keys + files.Keys == old(ldb.Keys + files.Keys)
      && forall n :: n in ldb ==> ldb[n] == old(ldb)[n]
    }

    /** Compacts the listed segments in order, skipping the young; stops at a failure. */
    method CompactEach(names: seq<string>, young: set<string>) returns (ok: bool)
      requires Valid() && SortedNames(names) && forall n :: n in names ==> n in ldb
      modifies this
      ensures Valid() && OnlyCompacted()
      ensures forall n :: n in old(ldb) && (n in young || n !in names) ==> n in ldb
      ensures ok ==> forall n :: n in names && n !in young ==> n !in ldb
    {
      for i := 0 to |names|
        invariant Valid() && OnlyCompacted()
        invariant forall j :: i <= j < |names| ==> names[j] in ldb
        invariant forall n :: n in old(ldb) && (n in young || n !in names) ==> n in ldb
        invariant forall j :: 0 <= j < i && names[j] !in young ==> names[j] !in ldb
      {
        if names[i] in young {
          continue;
        }
        forall j | i < j < |names| ensures names[j] != names[i] { LessOrder(names[i], names[i], names[i]); }
        ok := CompactSegment(names[i]);
        if !ok {
          return;
        }
      }
      ok := true;
    }

    /** Compacts all but the last minMutable segments, skipping the young ones; nothing a
        reader can see changes. */
    method Compact(young: set<string>) returns (ok: bool)
      requires Valid()
      modifies this
      ensures Valid() && OnlyCompacted()
      ensures forall n :: n in old(ldb) && (n in young || |Above(old(ldb).Keys, n)| < minMutable) ==> n in ldb
      ensures ok ==> forall n :: n in ldb ==> n in young || |Above(old(ldb).Keys, n)| < minMutable
    {
      var names := Sort(ldb.Keys);
      OldestByRank(names, ldb.Keys, minMutable);
      if |names| < minMutable {
        return true;
      }
      ok := CompactEach(names[..|names| - minMutable], young);
    }

    /** The segment a key of that name goes to.  A name below the active one cannot be created;
        a new one becomes active and sets off a compaction. */
    method CreateSegmentIfNotExists(name: string, young: set<string>) returns (st: Status)
      requires Valid()
      modifies this
      ensures Valid() && contents == old(contents)
      ensures old(name in ldb.Keys + files.Keys) ==> st == Ok && name in ldb
      ensures st == ErrImmutable <==> old(name !in ldb.Keys + files.Keys) && Less(name, old(active))
      ensures st == ErrImmutable ==> ldb == old(ldb) && files == old(files) && active == old(active)
      ensures st != ErrImmutable ==> name in ldb.Keys + files.Keys
      ensures st == Ok && old(name !in ldb.Keys + files.Keys) && name !in young ==> (name in ldb <==> minMutable >= 1)
      ensures st == Ok && minMutable >= 1 ==> name in ldb
      ensures st == ErrIO || st == Ok || st == ErrImmutable
    {
      if name in ldb {
        return Ok;
      }
      if name in files {
        Uncompact(name);
        return Ok;
      }
      if Less(name, active) {
        return ErrImmutable;
      }
      CreateGood(Fields(), contents, name);
      ldb := ldb[name := map[]];
      active := name;
      NothingAbove(ldb.Keys, name);
      var ok := Compact(young);
      st := if ok then Ok else ErrIO;
    }

    /** A write to a table that drops its new segment at once meets a closed database. */
    method Put(key: Bytes, value: Bytes, young: set<string>) returns (st: Status)
      requires Valid()
      modifies this
      ensures Valid()
      ensures contents == if st == Ok then AfterPut(old(contents), key, value) else old(contents)
      ensures st == ErrClosed ==> minMutable == 0
      ensures st == ErrImmutable ==> old(part(key) !in ldb.Keys + files.Keys) && Less(part(key), old(active))
    {
      var r, segment := Get(key);
      var v := if r.Found? then r.value else [];
      if v == value {
        if key in contents { assert contents[key := value] == contents; }
        return Ok;
      }
      st := CreateSegmentIfNotExists(part(key), young);
      if st != Ok {
        return;
      }
      if part(key) !in ldb {
        return ErrClosed;
      }
      PutGood(Fields(), contents, key, value);
      ldb := ldb[part(key) := ldb[part(key)][key := value]];
      contents := contents[key := value];
    }

    /** A key of a compacted segment cannot be deleted. */
    method Delete(key: Bytes) returns (st: Status)
      requires Valid()
      modifies this
      ensures Valid() && files == old(files) && active == old(active)
      ensures st == ErrImmutable <==> part(key) in files
      ensures st == ErrImmutable || st == Ok
      ensures contents == if st == Ok then old(contents) - {key} else old(contents)
    {
      var name := part(key);
      if name in ldb {
        DeleteGood(Fields(), contents, key);
        ldb := ldb[name := ldb[name] - {key}];
        contents := contents - {key};
        return Ok;
      }
      assert Fields().Answer(key) == Query(contents, key);
      if name in files {
        return ErrImmutable;
      }
      assert contents - {key} == contents;
      return Ok;
    }

    /** Any run of operations reads and writes as one map would. */
    method Run(ops: seq<Op>) returns (results: seq<Result>)
      requires Valid()
      modifies this
      ensures Valid() && |results| == |ops|
      ensures Replays(old(contents), ops, results, contents)
    {
      results := [];
      for i := 0 to |ops|
        invariant Valid() && |results| == i
        invariant Replays(old(contents), ops[..i], results, contents)
      {
        var r: Result;
        ghost var before := contents;
        match ops[i] {
          case DoGet(k) =>
            var answer, _ := Get(k);
            r := Read(answer);
          case DoPut(k, v, young) =>
            var st := Put(k, v, young);
            r := Wrote(st);
          case DoDelete(k) =>
            var st := Delete(k);
            r := Wrote(st);
          case DoCompact(young) =>
            var ok := Compact(young);
            r := Wrote(if ok then Ok else ErrIO);
        }
        ReplayMore(old(contents), ops[..i], results, before, ops[i], r, contents);
        assert ops[..i + 1] == ops[..i] + [ops[i]];
        results := results + [r];
      }
      assert ops[..|ops|] == ops;
    }
  }
}
