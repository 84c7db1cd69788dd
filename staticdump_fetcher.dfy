/**
  The type-loading step of the static-data fetcher (staticdump/fetcher.go):
  where the type database goes, the packaged-volume overrides, and the
  write loop that can be stopped or fail, after which the partial database
  is deleted. Downloading, the zip cache and the periodic worker are not
  part of this model. The override tables, the stop channel and the
  outcome of each write arrive as parameters.
*/
module StaticDumpFetcher {
  import opened Strs
  import opened TypeDB

  // ---- RunOnce: the database path ----

  /** Index of the last '/' in `s`, or -1. */
  function LastSlash(s: string): (r: int)
    ensures -1 <= r < |s|
    ensures r >= 0 ==> s[r] == '/'
    ensures forall i :: r < i < |s| ==> s[i] != '/'
  {
    if s == [] then -1
    else if s[|s| - 1] == '/' then |s| - 1
    else LastSlash(s[..|s| - 1])
  }

  /** Drops trailing slashes. */
  function TrimTrailingSlashes(s: string): (r: string)
    ensures |r| <= |s| && r == s[..|r|]
    ensures r == [] || r[|r| - 1] != '/'
  {
    if s != [] && s[|s| - 1] == '/' then TrimTrailingSlashes(s[..|s| - 1]) else s
  }

  /**
    `filepath.Base`: the last element after trailing slashes are dropped;
    "." for the empty path and "/" for a path of slashes only.
  */
  function Base(p: string): (r: string)
    ensures r != []
  {
    if p == [] then "."
    else
      var q := TrimTrailingSlashes(p);
      if q == [] then "/" else q[LastSlash(q) + 1..]
  }

  /** Index of the last '.' of the final element of `s`, or -1. */
  function LastDot(s: string): (r: int)
    ensures -1 <= r < |s|
    ensures r >= 0 ==> s[r] == '.' && forall i :: r < i < |s| ==> s[i] != '.' && s[i] != '/'
    ensures r < 0 ==> forall i :: LastSlash(s) < i < |s| ==> s[i] != '.'
  {
    if s == [] || s[|s| - 1] == '/' then -1
    else if s[|s| - 1] == '.' then |s| - 1
    else LastDot(s[..|s| - 1])
  }

  /** `filepath.Ext`: the suffix from the final dot of the last element, or "". */
  function Ext(p: string): (r: string)
  {
    var i := LastDot(p);
    if i < 0 then "" else p[i..]
  }

  /** `filepath.Join` of two elements, without the cleaning of `.` and `..`. */
  function Join(dir: string, name: string): string
  {
    if dir == [] then name else dir + "/" + name
  }

  /** The typedb path RunOnce derives from the static dump URL. */
  function TypeDBPath(dbPath: string, staticDumpURL: string): string
  {
    var base := Base(staticDumpURL);
    Join(dbPath, "types-" + TrimSuffix(base, Ext(base)))
  }

  /** The extension is a suffix of the path, so TrimSuffix drops exactly it. */
  lemma ExtIsSuffix(p: string)
    ensures HasSuffix(p, Ext(p))
    ensures TrimSuffix(p, Ext(p)) + Ext(p) == p
    ensures Ext(p) == [] || (Ext(p)[0] == '.' && forall i :: 1 <= i < |Ext(p)| ==> Ext(p)[i] != '.' && Ext(p)[i] != '/')
  {
    var i := LastDot(p);
    if i >= 0 {
      assert p[|p| - |Ext(p)|..] == Ext(p);
      forall j | 1 <= j < |Ext(p)| ensures Ext(p)[j] != '.' && Ext(p)[j] != '/' {
        assert Ext(p)[j] == p[i + j];
      }
    }
  }

  /** The base of a path is its part after the last slash (for paths not ending in one). */
  lemma BaseNoSlash(p: string)
    requires p != [] && p[|p| - 1] != '/'
    ensures Base(p) == p[LastSlash(p) + 1..]
    ensures forall i :: 0 <= i < |Base(p)| ==> Base(p)[i] != '/'
  {
    assert TrimTrailingSlashes(p) == p;
    forall i | 0 <= i < |Base(p)| ensures Base(p)[i] != '/' {
      assert Base(p)[i] == p[LastSlash(p) + 1 + i];
    }
  }

  /**
    The database of a dump lives directly under dbPath, named "types-"
    followed by the dump's file name without its extension.
  */
  lemma TypeDBPathShape(dbPath: string, staticDumpURL: string)
    ensures var base := Base(staticDumpURL);
      TypeDBPath(dbPath, staticDumpURL) + Ext(base) == Join(dbPath, "types-" + base)
  {
    var base := Base(staticDumpURL);
    var ext := Ext(base);
    ExtIsSuffix(base);
    var stem := TrimSuffix(base, ext);
    var x: string := "types-";
    assert (x + stem) + ext == x + base by {
      SeqAssoc(x, stem, ext);
    }
    if dbPath != [] {
      SeqAssoc(dbPath + "/", x + stem, ext);
    }
  }

  lemma SeqAssoc(a: string, b: string, c: string)
    ensures (a + b) + c == a + (b + c)
  {
  }

  /** What os.Stat reports for the typedb path. */
  datatype Stat = Exists | NotExist | StatError(err: string)

  datatype RunStep = Load(path: string) | UseExisting(path: string) | Fail(err: string)

  /** RunOnce: types are loaded only when the path does not exist; another stat error aborts. */
  function RunOnceStep(dbPath: string, staticDumpURL: string, stat: Stat): (r: RunStep)
    ensures r.Load? <==> stat.NotExist?
    ensures r.Fail? <==> stat.StatError?
    ensures !r.Fail? ==> r.path == TypeDBPath(dbPath, staticDumpURL)
  {
    var path := TypeDBPath(dbPath, staticDumpURL);
    match stat
    case NotExist => Load(path)
    case Exists => UseExisting(path)
    case StatError(e) => Fail(e)
  }

  // ---- packaged-volume overrides ----

  /** The three override tables of the fetcher, by group, market group and type ID. */
  datatype Overrides = Overrides(ByGroup: map<int, real>, ByMarketGroup: map<int, real>, ByItem: map<int, real>)

  /** The packaged volume a type ends with: the most specific override that matches, else its own. */
  function OverriddenVolume(ov: Overrides, t: EveType): real
  {
    if t.ID in ov.ByItem then ov.ByItem[t.ID]
    else if t.MarketGroupID in ov.ByMarketGroup then ov.ByMarketGroup[t.MarketGroupID]
    else if t.GroupID in ov.ByGroup then ov.ByGroup[t.GroupID]
    else t.PackagedVolume
  }

  /** The three lookups of the load loop, applied in turn to the packaged volume. */
  method ApplyVolumeOverrides(ov: Overrides, t: EveType) returns (t': EveType)
    ensures t' == t.(PackagedVolume := OverriddenVolume(ov, t))
  {
    t' := t;
    if t.GroupID in ov.ByGroup {
      t' := t'.(PackagedVolume := ov.ByGroup[t.GroupID]);
    }
    if t.MarketGroupID in ov.ByMarketGroup {
      t' := t'.(PackagedVolume := ov.ByMarketGroup[t.MarketGroupID]);
    }
    if t.ID in ov.ByItem {
      t' := t'.(PackagedVolume := ov.ByItem[t.ID]);
    }
  }

  /** An item override wins over every other; a market-group override wins over a group override. */
  lemma OverridePrecedence(ov: Overrides, t: EveType)
    ensures t.ID in ov.ByItem ==> OverriddenVolume(ov, t) == ov.ByItem[t.ID]
    ensures t.ID !in ov.ByItem && t.MarketGroupID in ov.ByMarketGroup ==> OverriddenVolume(ov, t) == ov.ByMarketGroup[t.MarketGroupID]
    ensures t.ID !in ov.ByItem && t.MarketGroupID !in ov.ByMarketGroup && t.GroupID in ov.ByGroup ==> OverriddenVolume(ov, t) == ov.ByGroup[t.GroupID]
    ensures t.ID !in ov.ByItem && t.MarketGroupID !in ov.ByMarketGroup && t.GroupID !in ov.ByGroup ==> OverriddenVolume(ov, t) == t.PackagedVolume
  {
  }

  /** Overriding twice changes nothing more when the type's own IDs are kept. */
  lemma OverrideIdempotent(ov: Overrides, t: EveType)
    ensures var t' := t.(PackagedVolume := OverriddenVolume(ov, t));
      t'.(PackagedVolume := OverriddenVolume(ov, t')) == t'
  {
  }

  function Overridden(ov: Overrides, ts: seq<EveType>): (r: seq<EveType>)
    ensures |r| == |ts|
    ensures forall i :: 0 <= i < |ts| ==> r[i] == ts[i].(PackagedVolume := OverriddenVolume(ov, ts[i]))
  {
    if ts == [] then [] else Overridden(ov, ts[..|ts| - 1]) + [ts[|ts| - 1].(PackagedVolume := OverriddenVolume(ov, ts[|ts| - 1]))]
  }

  // ---- the new type database ----

  datatype StoreState = Open | Closed | Deleted

  /** The bolt type database being filled: the types written so far, in order. */
  class TypeStore {
    var types: seq<EveType>
    var state: StoreState

    constructor ()
      ensures types == [] && state == Open
    {
      types := [];
      state := Open;
    }

    /** `PutType`; `fails` is whether the write returns an error, which writes nothing. */
    method PutType(t: EveType, fails: bool) returns (ok: bool)
      requires state == Open
      modifies this
      ensures ok == !fails
      ensures types == if ok then old(types) + [t] else old(types)
      ensures state == Open
    {
      if fails {
        return false;
      }
      types := types + [t];
      return true;
    }

    method Close()
      modifies this
      ensures state == Closed && types == old(types)
    {
      state := Closed;
    }

    method Delete()
      modifies this
      ensures state == Deleted && types == []
    {
      state := Deleted;
      types := [];
    }
  }

  datatype LoadOutcome = Finished | Stopped | WriteFailed

  /** The loop halts before writing index `i`: stop is seen (polled every 1000 types) or the write fails. */
  predicate HaltsAt(i: nat, stop: nat -> bool, fails: nat -> bool)
  {
    (i % 1000 == 0 && stop(i)) || fails(i)
  }

  /**
    The write loop of `loadTypes` with its deferred cleanup. `stop(i)`
    tells whether the stop channel is closed when polled before type `i`;
    `fails(i)` whether writing type `i` fails. The types before the first
    halt are written with their overrides; a full pass closes the database,
    anything else deletes it.
  */
  method LoadTypesInto(db: TypeStore, types: seq<EveType>, ov: Overrides, stop: nat -> bool, fails: nat -> bool)
    returns (outcome: LoadOutcome, written: nat)
    requires db.state == Open && db.types == []
    modifies db
    ensures written <= |types|
    ensures forall i :: 0 <= i < written ==> !HaltsAt(i, stop, fails)
    ensures outcome == Finished <==> written == |types|
    ensures outcome == Stopped ==> written % 1000 == 0 && stop(written)
    ensures outcome == WriteFailed ==> !(written % 1000 == 0 && stop(written)) && fails(written)
    ensures outcome == Finished ==> db.state == Closed && db.types == Overridden(ov, types)
    ensures outcome != Finished ==> db.state == Deleted && db.types == []
  {
    var finished := false;
    outcome := Finished;
    written := 0;
    while written < |types|
      invariant written <= |types|
      invariant db.state == Open
      invariant db.types == Overridden(ov, types[..written])
      invariant forall i :: 0 <= i < written ==> !HaltsAt(i, stop, fails)
    {
      if written % 1000 == 0 && stop(written) {
        outcome := Stopped;
        break;
      }
      var t := ApplyVolumeOverrides(ov, types[written]);
      var ok := db.PutType(t, fails(written));
      if !ok {
        outcome := WriteFailed;
        break;
      }
      assert types[..written + 1] == types[..written] + [types[written]];
      written := written + 1;
    }
    if outcome == Finished {
      assert types[..written] == types;
      finished := true;
    }
    // the deferred cleanup
    if finished {
      db.Close();
    } else {
      db.Delete();
    }
  }
}
