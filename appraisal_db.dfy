/**
  The bolt appraisal store (bolt/appraisal_db.go). Each bucket is a map
  from byte keys to values:
    appraisals                  database ID -> the stored appraisal
    appraisals-last-used        database ID -> 8-byte timestamp
    appraisals-by-user          hash ":" database ID -> database ID
    appraisals-notified-time    database ID -> 8-byte timestamp
    appraisals-notified-status  database ID -> status text
  The appraisal bucket's sequence numbers new appraisals. The conversion
  between appraisal IDs and numbers lives outside this file, so it arrives
  as an IDCodec. Values are kept decoded, because the gob and snappy
  encodings are not part of this model.
*/
module AppraisalStore {
  import opened Wrappers
  import opened Items
  import opened DBKeys
  import Strs

  const InitialSequence: uint64 := 20000000

  const Colon: byte := 58
  const Semicolon: byte := 59

  /** `AppraisalIDToUint64` and `Uint64ToAppraisalID` of the appraisal package. */
  datatype IDCodec = IDCodec(ToUint64: string -> uint64, FromUint64: uint64 -> string)

  /** The codec reads back the lower-cased IDs it writes. */
  ghost predicate RoundTrips(codec: IDCodec)
  {
    forall x: uint64 {:trigger codec.FromUint64(x)} :: codec.ToUint64(Strs.ToLower(codec.FromUint64(x))) == x
  }

  /** `EncodeDBID`: the 8-byte key of an appraisal ID. */
  function EncodeDBID(codec: IDCodec, id: string): (r: Key)
    ensures |r| == 8 && DecodeUint64(r) == codec.ToUint64(id)
  {
    Uint64RoundTrip(codec.ToUint64(id), []);
    EncodeUint64(codec.ToUint64(id))
  }

  /** `DecodeDBID`: the lower-cased appraisal ID of the number in the first 8 bytes. */
  function DecodeDBID(codec: IDCodec, dbID: Key): string
    requires |dbID| >= 8
  {
    Strs.ToLower(codec.FromUint64(DecodeUint64(dbID)))
  }

  /** An ID numbered by the store is found again under the ID it is given, and keys sort as the numbers. */
  lemma NewIDKey(codec: IDCodec, x: uint64, y: uint64)
    requires RoundTrips(codec)
    ensures EncodeDBID(codec, DecodeDBID(codec, EncodeUint64(x))) == EncodeUint64(x)
    ensures x < y <==> Less(EncodeUint64(x), EncodeUint64(y))
  {
    Uint64RoundTrip(x, []);
    EncodeUint64Order(x, y);
  }

  /** `int64(u)` for a uint64 `u`: two's complement. */
  function ToInt64(u: uint64): (r: int)
    ensures -0x8000_0000_0000_0000 <= r < 0x8000_0000_0000_0000
    ensures r % Uint64Range == u
  {
    if u < 0x8000_0000_0000_0000 then u else u - Uint64Range
  }

  /** `uint64(n)` for an int64 `n`. */
  function ToUint64(n: int): (r: uint64)
    requires -0x8000_0000_0000_0000 <= n < 0x8000_0000_0000_0000
  {
    n % Uint64Range
  }

  /** A timestamp stored as 8 bytes reads back as the same int64. */
  lemma TimestampRoundTrip(now: int)
    requires -0x8000_0000_0000_0000 <= now < 0x8000_0000_0000_0000
    ensures ToInt64(DecodeUint64(EncodeUint64(ToUint64(now)))) == now
  {
    Uint64RoundTrip(ToUint64(now), []);
  }

  /** `[]byte(s)` for text whose characters are single bytes. */
  function StrBytes(s: string): (r: Key)
    ensures |r| == |s|
  {
    seq(|s|, i requires 0 <= i < |s| => (s[i] as int % 256) as byte)
  }

  /** The appraisals-by-user key: the owner hash, ':' and the database ID. */
  function UserKey(hash: string, dbID: Key): Key
  {
    StrBytes(hash) + [Colon] + dbID
  }

  predicate HasPrefix(k: Key, p: Key)
  {
    |p| <= |k| && k[..|p|] == p
  }

  /** Whether a listing keeps an appraisal of this kind; "" keeps every kind. */
  predicate KindMatches(a: Appraisal, kind: string)
  {
    kind == "" || a.Kind == kind
  }

  /** The number of entries after which the listing loops stop: the check follows the append, so at least one. */
  function Limit(reqCount: int): (r: nat)
    ensures r >= 1 && r >= reqCount
    ensures reqCount >= 1 ==> r == reqCount
  {
    if reqCount <= 0 then 1 else reqCount
  }

  function Take<T>(s: seq<T>, n: nat): (r: seq<T>)
    ensures |r| <= n && |r| <= |s|
    ensures |s| <= n ==> r == s
    ensures r == s[..|r|]
  {
    if |s| <= n then s else s[..n]
  }

  lemma TakeFull<T>(s: seq<T>, x: seq<T>, n: nat)
    requires |s| == n
    ensures Take(s + x, n) == s
  {
    assert (s + x)[..n] == s;
  }

  // ---- LatestAppraisals ----

  /** What LatestAppraisals keeps: public appraisals of the kind asked for. */
  predicate Listed(a: Appraisal, kind: string)
  {
    !a.Private && KindMatches(a, kind)
  }

  /** The appraisals stored under `keys`, in that order, that the listing keeps. */
  function Kept(keys: seq<Key>, store: map<Key, Appraisal>, kind: string): (r: seq<Appraisal>)
    requires forall k :: k in keys ==> k in store
    ensures |r| <= |keys|
  {
    if keys == [] then []
    else
      var a := store[keys[0]];
      (if Listed(a, kind) then [a] else []) + Kept(keys[1..], store, kind)
  }

  /** Kept holds exactly the listed appraisals of the keys, in key order. */
  lemma {:induction false} KeptSpec(keys: seq<Key>, store: map<Key, Appraisal>, kind: string)
    requires forall k :: k in keys ==> k in store
    ensures forall a :: a in Kept(keys, store, kind) ==> Listed(a, kind)
    ensures forall i :: 0 <= i < |keys| && Listed(store[keys[i]], kind) ==> store[keys[i]] in Kept(keys, store, kind)
  {
    if keys != [] {
      KeptSpec(keys[1..], store, kind);
      forall i | 0 <= i < |keys| && Listed(store[keys[i]], kind)
        ensures store[keys[i]] in Kept(keys, store, kind)
      {
        if i > 0 {
          assert keys[i] == keys[1..][i - 1];
        }
      }
    }
  }

  /**
    The loop invariant of LatestAppraisals: the listing of all keys is
    `result`, collected from the keys visited so far, followed by the
    listing of the keys left.
  */
  ghost predicate LatestInv(total: seq<Appraisal>, result: seq<Appraisal>, remaining: set<Key>,
                            store: map<Key, Appraisal>, kind: string, limit: nat)
  {
    && remaining <= store.Keys
    && |result| < limit
    && (forall k :: k in Descending(remaining) ==> k in store)
    && total == result + Kept(Descending(remaining), store, kind)
  }

  /** The listing of the keys left starts with the appraisal under the largest one, if it is listed. */
  lemma KeptHead(remaining: set<Key>, key: Key, store: map<Key, Appraisal>, kind: string)
    requires IsMax(key, remaining) && remaining <= store.Keys
    ensures forall k :: k in Descending(remaining - {key}) ==> k in store
    ensures forall k :: k in Descending(remaining) ==> k in store
    ensures Kept(Descending(remaining), store, kind)
         == (if Listed(store[key], kind) then [store[key]] else []) + Kept(Descending(remaining - {key}), store, kind)
  {
    DescendingMembers(remaining - {key});
    DescendingMembers(remaining);
    var d := Descending(remaining);
    DescendingStep(remaining, key);
    assert d[0] == key && d[1..] == Descending(remaining - {key});
  }

  /** Visiting `key`, the largest key left, keeps the invariant, or completes the listing. */
  lemma LatestStep(total: seq<Appraisal>, result: seq<Appraisal>, remaining: set<Key>, key: Key,
                   store: map<Key, Appraisal>, kind: string, limit: nat)
    requires LatestInv(total, result, remaining, store, kind, limit) && IsMax(key, remaining)
    ensures !Listed(store[key], kind) ==> LatestInv(total, result, remaining - {key}, store, kind, limit)
    ensures Listed(store[key], kind) && |result| + 1 >= limit ==> Take(total, limit) == result + [store[key]]
    ensures Listed(store[key], kind) && |result| + 1 < limit ==> LatestInv(total, result + [store[key]], remaining - {key}, store, kind, limit)
  {
    KeptHead(remaining, key, store, kind);
    var tail := Kept(Descending(remaining - {key}), store, kind);
    var a := store[key];
    if Listed(a, kind) {
      assert total == (result + [a]) + tail;
      if |result| + 1 >= limit {
        TakeFull(result + [a], tail, limit);
      }
    }
  }

  /** Once no key is left, the listing is what was collected. */
  lemma LatestDone(total: seq<Appraisal>, result: seq<Appraisal>, store: map<Key, Appraisal>, kind: string, limit: nat)
    requires LatestInv(total, result, {}, store, kind, limit)
    ensures Take(total, limit) == result
  {
    assert total == result + [];
  }

  // ---- LatestAppraisalsByUser ----

  /** The outcome of the by-user walk: the appraisals collected, and whether it ended in an error. */
  datatype Scan = Scan(Found: seq<Appraisal>, Failed: bool)

  /**
    The backward walk of LatestAppraisalsByUser over `keys`, the by-user
    keys below the seek key from the largest down, having collected `acc`.
    The walk stops at the first key without the hash prefix. Running out of
    keys reads a nil key, which has the prefix only when the hash is empty,
    and the nil value then fails to decode; so does an index entry whose
    appraisal is missing.
  */
  function ScanUser(keys: seq<Key>, byUser: map<Key, Key>, store: map<Key, Appraisal>,
                    hash: Key, kind: string, limit: nat, acc: seq<Appraisal>): (r: Scan)
    requires forall k :: k in keys ==> k in byUser
    requires |acc| < limit
    ensures |r.Found| <= limit && acc <= r.Found
    decreases |keys|
  {
    if keys == [] then Scan(acc, hash == [])
    else if !HasPrefix(keys[0], hash) then Scan(acc, false)
    else if byUser[keys[0]] !in store then Scan(acc, true)
    else
      var a := store[byUser[keys[0]]];
      if !KindMatches(a, kind) then ScanUser(keys[1..], byUser, store, hash, kind, limit, acc)
      else if |acc| + 1 >= limit then Scan(acc + [a], false)
      else ScanUser(keys[1..], byUser, store, hash, kind, limit, acc + [a])
  }

  /** The walk collects only appraisals of the kind asked for. */
  lemma {:induction false} ScanUserKinds(keys: seq<Key>, byUser: map<Key, Key>, store: map<Key, Appraisal>,
                                         hash: Key, kind: string, limit: nat, acc: seq<Appraisal>)
    requires forall k :: k in keys ==> k in byUser
    requires |acc| < limit
    ensures forall i ::
              |acc| <= i < |ScanUser(keys, byUser, store, hash, kind, limit, acc).Found|
              ==> KindMatches(ScanUser(keys, byUser, store, hash, kind, limit, acc).Found[i], kind)
    decreases |keys|
  {
    if keys != [] && HasPrefix(keys[0], hash) && byUser[keys[0]] in store {
      var a := store[byUser[keys[0]]];
      if !KindMatches(a, kind) {
        ScanUserKinds(keys[1..], byUser, store, hash, kind, limit, acc);
        assert ScanUser(keys, byUser, store, hash, kind, limit, acc) == ScanUser(keys[1..], byUser, store, hash, kind, limit, acc);
      } else if |acc| + 1 < limit {
        ScanUserKinds(keys[1..], byUser, store, hash, kind, limit, acc + [a]);
        var r := ScanUser(keys[1..], byUser, store, hash, kind, limit, acc + [a]);
        assert ScanUser(keys, byUser, store, hash, kind, limit, acc) == r;
        forall i | |acc| <= i < |r.Found|
          ensures KindMatches(r.Found[i], kind)
        {
          if i == |acc| {
            assert acc + [a] <= r.Found;
            assert r.Found[i] == (acc + [a])[i];
          }
        }
      }
    }
  }

  /** The leading keys of `keys` that carry the hash prefix: the user's run the walk covers. */
  function Run(keys: seq<Key>, hash: Key): (r: seq<Key>)
    ensures r <= keys
    ensures forall k :: k in r ==> HasPrefix(k, hash)
    ensures r == keys || !HasPrefix(keys[|r|], hash)
  {
    if keys == [] || !HasPrefix(keys[0], hash) then [] else [keys[0]] + Run(keys[1..], hash)
  }

  /** The appraisals behind the index entries `keys` whose kind matches. */
  function Matching(keys: seq<Key>, byUser: map<Key, Key>, store: map<Key, Appraisal>, kind: string): seq<Appraisal>
    requires forall k :: k in keys ==> k in byUser && byUser[k] in store
  {
    if keys == [] then []
    else
      var a := store[byUser[keys[0]]];
      (if KindMatches(a, kind) then [a] else []) + Matching(keys[1..], byUser, store, kind)
  }

  /** The matching appraisals of a run that starts at `keys[0]`. */
  lemma MatchingHead(keys: seq<Key>, byUser: map<Key, Key>, store: map<Key, Appraisal>, hash: Key, kind: string)
    requires forall k :: k in keys ==> k in byUser && byUser[k] in store
    requires keys != [] && HasPrefix(keys[0], hash)
    ensures forall k :: k in keys[1..] ==> k in byUser && byUser[k] in store
    ensures var a := store[byUser[keys[0]]];
      Matching(Run(keys, hash), byUser, store, kind)
      == (if KindMatches(a, kind) then [a] else []) + Matching(Run(keys[1..], hash), byUser, store, kind)
  {
    var run := Run(keys, hash);
    assert run[0] == keys[0] && run[1..] == Run(keys[1..], hash);
  }

  /**
    With an index whose entries all point at stored appraisals and a
    non-empty hash, the walk never fails and yields the first `limit`
    matching appraisals of the user's run.
  */
  lemma {:induction false} ScanUserMeaning(keys: seq<Key>, byUser: map<Key, Key>, store: map<Key, Appraisal>,
                                           hash: Key, kind: string, limit: nat, acc: seq<Appraisal>)
    requires forall k :: k in keys ==> k in byUser && byUser[k] in store
    requires |acc| < limit && hash != []
    ensures ScanUser(keys, byUser, store, hash, kind, limit, acc)
         == Scan(Take(acc + Matching(Run(keys, hash), byUser, store, kind), limit), false)
  {
    if keys == [] || !HasPrefix(keys[0], hash) {
      assert acc + [] == acc;
    } else {
      MatchingHead(keys, byUser, store, hash, kind);
      var a := store[byUser[keys[0]]];
      if !KindMatches(a, kind) {
        ScanUserMeaning(keys[1..], byUser, store, hash, kind, limit, acc);
        ScanUserSkips(keys, byUser, store, hash, kind, limit, acc);
      } else {
        var acc' := acc + [a];
        if |acc'| < limit {
          ScanUserMeaning(keys[1..], byUser, store, hash, kind, limit, acc');
        }
        ScanUserCollects(keys, byUser, store, hash, kind, limit, acc);
      }
    }
  }

  /** The case of ScanUserMeaning where the first key's appraisal is of another kind. */
  lemma ScanUserSkips(keys: seq<Key>, byUser: map<Key, Key>, store: map<Key, Appraisal>,
                      hash: Key, kind: string, limit: nat, acc: seq<Appraisal>)
    requires forall k :: k in keys ==> k in byUser && byUser[k] in store
    requires |acc| < limit && keys != [] && HasPrefix(keys[0], hash)
    requires !KindMatches(store[byUser[keys[0]]], kind)
    requires Matching(Run(keys, hash), byUser, store, kind) == [] + Matching(Run(keys[1..], hash), byUser, store, kind)
    requires ScanUser(keys[1..], byUser, store, hash, kind, limit, acc)
          == Scan(Take(acc + Matching(Run(keys[1..], hash), byUser, store, kind), limit), false)
    ensures ScanUser(keys, byUser, store, hash, kind, limit, acc)
         == Scan(Take(acc + Matching(Run(keys, hash), byUser, store, kind), limit), false)
  {
    assert [] + Matching(Run(keys[1..], hash), byUser, store, kind) == Matching(Run(keys[1..], hash), byUser, store, kind);
  }

  /** The case of ScanUserMeaning where the first key's appraisal is collected. */
  lemma ScanUserCollects(keys: seq<Key>, byUser: map<Key, Key>, store: map<Key, Appraisal>,
                         hash: Key, kind: string, limit: nat, acc: seq<Appraisal>)
    requires forall k :: k in keys ==> k in byUser && byUser[k] in store
    requires |acc| < limit && keys != [] && HasPrefix(keys[0], hash)
    requires KindMatches(store[byUser[keys[0]]], kind)
    requires var a := store[byUser[keys[0]]];
      Matching(Run(keys, hash), byUser, store, kind) == [a] + Matching(Run(keys[1..], hash), byUser, store, kind)
    requires var acc' := acc + [store[byUser[keys[0]]]];
      |acc'| < limit ==>
        ScanUser(keys[1..], byUser, store, hash, kind, limit, acc')
        == Scan(Take(acc' + Matching(Run(keys[1..], hash), byUser, store, kind), limit), false)
    ensures ScanUser(keys, byUser, store, hash, kind, limit, acc)
         == Scan(Take(acc + Matching(Run(keys, hash), byUser, store, kind), limit), false)
  {
    var a := store[byUser[keys[0]]];
    var rest := Matching(Run(keys[1..], hash), byUser, store, kind);
    assert acc + ([a] + rest) == (acc + [a]) + rest;
    if |acc| + 1 >= limit {
      TakeFull(acc + [a], rest, limit);
    }
  }

  /** The loop invariant of LatestAppraisalsByUser: the walk over the keys left, from `result` on, ends as the whole walk does. */
  ghost predicate ScanInv(total: Scan, result: seq<Appraisal>, remaining: set<Key>, byUser: map<Key, Key>,
                          store: map<Key, Appraisal>, hash: Key, kind: string, limit: nat)
  {
    && remaining <= byUser.Keys
    && |result| < limit
    && (forall k :: k in Descending(remaining) ==> k in byUser)
    && total == ScanUser(Descending(remaining), byUser, store, hash, kind, limit, result)
  }

  /** Visiting `key`, the largest key left: each way the loop body goes keeps the invariant or ends the walk. */
  lemma ScanUserStep(total: Scan, result: seq<Appraisal>, remaining: set<Key>, key: Key, byUser: map<Key, Key>,
                     store: map<Key, Appraisal>, hash: Key, kind: string, limit: nat)
    requires ScanInv(total, result, remaining, byUser, store, hash, kind, limit) && IsMax(key, remaining)
    ensures !HasPrefix(key, hash) ==> total == Scan(result, false)
    ensures HasPrefix(key, hash) && byUser[key] !in store ==> total == Scan(result, true)
    ensures HasPrefix(key, hash) && byUser[key] in store && !KindMatches(store[byUser[key]], kind)
      ==> ScanInv(total, result, remaining - {key}, byUser, store, hash, kind, limit)
    ensures HasPrefix(key, hash) && byUser[key] in store && KindMatches(store[byUser[key]], kind) && |result| + 1 >= limit
      ==> total == Scan(result + [store[byUser[key]]], false)
    ensures HasPrefix(key, hash) && byUser[key] in store && KindMatches(store[byUser[key]], kind) && |result| + 1 < limit
      ==> ScanInv(total, result + [store[byUser[key]]], remaining - {key}, byUser, store, hash, kind, limit)
  {
    var rest := remaining - {key};
    DescendingMembers(rest);
    DescendingStep(remaining, key);
    assert Descending(remaining)[1..] == Descending(rest);
  }

  /** Once no key is left, the walk reads a nil key. */
  lemma ScanUserDone(total: Scan, result: seq<Appraisal>, byUser: map<Key, Key>,
                     store: map<Key, Appraisal>, hash: Key, kind: string, limit: nat)
    requires ScanInv(total, result, {}, byUser, store, hash, kind, limit)
    ensures total == Scan(result, hash == [])
  {
  }

  /** The by-user keys a backward walk from `seek` can reach. */
  function Below(byUser: map<Key, Key>, seek: Key): set<Key>
  {
    set k | k in byUser && Less(k, seek)
  }

  /** The key LatestAppraisalsByUser seeks: hash ":" dbID(after), or hash ";" for no `after`. */
  function SeekKey(codec: IDCodec, hash: string, after: string): Key
  {
    StrBytes(hash) + (if after != "" then [Colon] + EncodeDBID(codec, after) else [Semicolon])
  }

  /**
    Which of the user's index entries lie below the seek key: without
    `after` all of them; with it, exactly those of smaller number.
  */
  lemma SeekBounds(codec: IDCodec, hash: string, after: string, x: uint64)
    ensures after == "" ==> Less(UserKey(hash, EncodeUint64(x)), SeekKey(codec, hash, after))
    ensures after != "" ==> (Less(UserKey(hash, EncodeUint64(x)), SeekKey(codec, hash, after)) <==> x < codec.ToUint64(after))
  {
    var h := StrBytes(hash);
    var d := EncodeUint64(x);
    assert UserKey(hash, d) == h + ([Colon] + d);
    LessCommonPrefix(h, [Colon] + d, if after != "" then [Colon] + EncodeDBID(codec, after) else [Semicolon]);
    if after != "" {
      var e := EncodeDBID(codec, after);
      LessCommonPrefix([Colon], d, e);
      Uint64RoundTrip(codec.ToUint64(after), []);
      EncodeUint64Order(x, codec.ToUint64(after));
    }
  }

  /**
    When owner hashes all have the same length, the hash prefix picks out
    exactly the user's own index entries.
  */
  lemma OwnEntriesOnly(hash: string, other: string, dbID: Key)
    requires |other| == |hash|
    ensures HasPrefix(UserKey(other, dbID), StrBytes(hash)) <==> StrBytes(other) == StrBytes(hash)
  {
    assert UserKey(other, dbID)[..|hash|] == StrBytes(other);
  }

  // ---- notification state ----

  /** What GetNotifiedState reports: the status, the timestamp, and whether both were stored. */
  datatype Notified = Notified(Status: string, Timestamp: Option<int>, Found: bool)

  ghost predicate EightByteValues(m: map<Key, Key>)
  {
    forall k :: k in m ==> |m[k]| == 8
  }

  /**
    GetNotifiedState on the two notification buckets: the status is read
    only when a time is stored, and found only when both are.
  */
  function NotifiedState(times: map<Key, Key>, statuses: map<Key, string>, dbID: Key): (r: Notified)
    requires EightByteValues(times)
    ensures r.Found <==> dbID in times && dbID in statuses
    ensures r.Timestamp.Some? <==> dbID in times
    ensures r.Found ==> r.Status == statuses[dbID]
    ensures !r.Found ==> r.Status == ""
  {
    if dbID !in times then Notified("", None, false)
    else
      var t := Some(ToInt64(DecodeUint64(times[dbID])));
      if dbID in statuses then Notified(statuses[dbID], t, true) else Notified("", t, false)
  }

  /** After a status is saved at `now`, it is read back with that time, so saving it again is refused. */
  lemma NotifiedAfterSet(times: map<Key, Key>, statuses: map<Key, string>, dbID: Key, status: string, now: int)
    requires EightByteValues(times)
    requires -0x8000_0000_0000_0000 <= now < 0x8000_0000_0000_0000
    ensures EightByteValues(times[dbID := EncodeUint64(ToUint64(now))])
    ensures NotifiedState(times[dbID := EncodeUint64(ToUint64(now))], statuses[dbID := status], dbID)
         == Notified(status, Some(now), true)
  {
    TimestampRoundTrip(now);
  }

  // ---- the store ----

  class AppraisalDB {
    var appraisals: map<Key, Appraisal>
    var sequence: uint64
    var lastUsed: map<Key, Key>
    var byUser: map<Key, Key>
    var notifiedTime: map<Key, Key>
    var notifiedStatus: map<Key, string>

    /** Timestamps are always written as 8 bytes. */
    ghost predicate Valid()
      reads this
    {
      EightByteValues(notifiedTime) && EightByteValues(lastUsed)
    }

    /** NewAppraisalDB on a fresh file: empty buckets, the appraisal sequence at 20000000. */
    constructor ()
      ensures Valid()
      ensures appraisals == map[] && byUser == map[] && lastUsed == map[]
      ensures notifiedTime == map[] && notifiedStatus == map[]
      ensures sequence == InitialSequence
    {
      appraisals := map[];
      sequence := InitialSequence;
      lastUsed := map[];
      byUser := map[];
      notifiedTime := map[];
      notifiedStatus := map[];
    }

    /** `getAppraisal`: the appraisal stored under the ID, or None for AppraisalNotFound. */
    function Lookup(codec: IDCodec, id: string): (r: Option<Appraisal>)
      reads this
      ensures r.Some? <==> EncodeDBID(codec, id) in appraisals
      ensures r.Some? ==> r.value == appraisals[EncodeDBID(codec, id)]
    {
      var dbID := EncodeDBID(codec, id);
      if dbID in appraisals then Some(appraisals[dbID]) else None
    }

    /** Every appraisal stored under a numbered key is found by the ID that key decodes to. */
    lemma LookupStoredKey(codec: IDCodec, x: uint64)
      requires RoundTrips(codec)
      requires EncodeUint64(x) in appraisals
      ensures Lookup(codec, DecodeDBID(codec, EncodeUint64(x))) == Some(appraisals[EncodeUint64(x)])
    {
      NewIDKey(codec, x, x);
    }

    /** `TotalAppraisals`: the appraisal sequence read as an int64. */
    function TotalAppraisals(): (r: int)
      reads this
      ensures -0x8000_0000_0000_0000 <= r < 0x8000_0000_0000_0000
      ensures sequence < 0x8000_0000_0000_0000 ==> r == sequence
      ensures sequence >= 0x8000_0000_0000_0000 ==> r < 0
      ensures ToUint64(r) == sequence
    {
      ToInt64(sequence)
    }

    /**
      `PutNewAppraisal`: an appraisal without ID is numbered with the next
      sequence value and named after it; one with an ID keeps it. The owner
      is taken from the user, and a user's appraisal is also indexed under
      its owner hash.
    */
    method PutNewAppraisal(codec: IDCodec, a: Appraisal) returns (stored: Appraisal, dbID: Key)
      requires Valid()
      modifies this
      ensures Valid()
      ensures a.ID == "" ==>
        && sequence == (old(sequence) + 1) % Uint64Range
        && dbID == EncodeUint64(sequence)
        && stored.ID == DecodeDBID(codec, dbID)
      ensures a.ID != "" ==> sequence == old(sequence) && dbID == EncodeDBID(codec, a.ID) && stored.ID == a.ID
      ensures stored == a.(ID := stored.ID, OwnerID := if a.User.Some? then a.User.value.CharacterID else a.OwnerID)
      ensures appraisals == old(appraisals)[dbID := stored]
      ensures byUser == if a.User.Some? then old(byUser)[UserKey(a.User.value.CharacterOwnerHash, dbID) := dbID] else old(byUser)
      ensures lastUsed == old(lastUsed) && notifiedTime == old(notifiedTime) && notifiedStatus == old(notifiedStatus)
      ensures RoundTrips(codec) || a.ID != "" ==> Lookup(codec, stored.ID) == Some(stored)
    {
      stored := a;
      if a.ID == "" {
        sequence := (sequence + 1) % Uint64Range;
        dbID := EncodeUint64(sequence);
        stored := stored.(ID := DecodeDBID(codec, dbID));
      } else {
        dbID := EncodeDBID(codec, a.ID);
      }
      if a.User.Some? {
        stored := stored.(OwnerID := a.User.value.CharacterID);
      }
      appraisals := appraisals[dbID := stored];
      if a.User.Some? {
        byUser := byUser[UserKey(a.User.value.CharacterOwnerHash, dbID) := dbID];
      }
      if a.ID == "" && RoundTrips(codec) {
        NewIDKey(codec, sequence, sequence);
      }
    }

    /** `GetNotifiedState`. */
    function GetNotifiedState(codec: IDCodec, id: string): (r: Notified)
      requires Valid()
      reads this
      ensures r == NotifiedState(notifiedTime, notifiedStatus, EncodeDBID(codec, id))
    {
      NotifiedState(notifiedTime, notifiedStatus, EncodeDBID(codec, id))
    }

    /**
      `SetNotifiedState`: refused when the same status is already recorded;
      otherwise the time `now` (Unix seconds) and the status are written.
    */
    method SetNotifiedState(codec: IDCodec, id: string, status: string, now: int) returns (changed: bool)
      requires Valid()
      requires -0x8000_0000_0000_0000 <= now < 0x8000_0000_0000_0000
      modifies this
      ensures Valid()
      ensures var prev := old(GetNotifiedState(codec, id));
        changed <==> !(prev.Found && prev.Status == status)
      ensures var dbID := EncodeDBID(codec, id);
        && notifiedTime == (if changed then old(notifiedTime)[dbID := EncodeUint64(ToUint64(now))] else old(notifiedTime))
        && notifiedStatus == (if changed then old(notifiedStatus)[dbID := status] else old(notifiedStatus))
      ensures changed ==> GetNotifiedState(codec, id) == Notified(status, Some(now), true)
      ensures appraisals == old(appraisals) && byUser == old(byUser) && lastUsed == old(lastUsed) && sequence == old(sequence)
    {
      var prev := GetNotifiedState(codec, id);
      if prev.Found && status == prev.Status {
        return false;
      }
      var dbID := EncodeDBID(codec, id);
      NotifiedAfterSet(notifiedTime, notifiedStatus, dbID, status, now);
      notifiedTime := notifiedTime[dbID := EncodeUint64(ToUint64(now))];
      notifiedStatus := notifiedStatus[dbID := status];
      changed := true;
    }

    /**
      `DeleteAppraisal`: the ID leaves the appraisal, last-used and both
      notification buckets; the by-user entry goes too when the stored
      appraisal has a user. A missing appraisal reads as the empty one,
      which has none, so then the index is left alone.
    */
    method DeleteAppraisal(codec: IDCodec, id: string)
      requires Valid()
      modifies this
      ensures Valid()
      ensures var dbID := EncodeDBID(codec, id);
        && appraisals == old(appraisals) - {dbID}
        && lastUsed == old(lastUsed) - {dbID}
        && notifiedTime == old(notifiedTime) - {dbID}
        && notifiedStatus == old(notifiedStatus) - {dbID}
        && byUser == (if dbID in old(appraisals) && old(appraisals)[dbID].User.Some?
                      then old(byUser) - {UserKey(old(appraisals)[dbID].User.value.CharacterOwnerHash, dbID)}
                      else old(byUser))
      ensures Lookup(codec, id) == None && !GetNotifiedState(codec, id).Found
      ensures sequence == old(sequence)
    {
      var found := Lookup(codec, id);
      var appraisal := if found.Some? then found.value else NewAppraisal("");
      var appraisalFound := true;
      var dbID := EncodeDBID(codec, id);
      if appraisalFound && appraisal.User.Some? {
        byUser := byUser - {UserKey(appraisal.User.value.CharacterOwnerHash, dbID)};
      }
      appraisals := appraisals - {dbID};
      lastUsed := lastUsed - {dbID};
      notifiedTime := notifiedTime - {dbID};
      notifiedStatus := notifiedStatus - {dbID};
    }

    /**
      `LatestAppraisals`: walks the appraisal keys from the last one down,
      skipping private appraisals and other kinds, and stops once the
      listing holds `reqCount` entries (one, when `reqCount` is 0).
    */
    method LatestAppraisals(reqCount: int, kind: string) returns (result: seq<Appraisal>)
      requires reqCount >= 0
      ensures forall k :: k in Descending(appraisals.Keys) ==> k in appraisals
      ensures result == Take(Kept(Descending(appraisals.Keys), appraisals, kind), Limit(reqCount))
    {
      DescendingMembers(appraisals.Keys);
      ghost var total := Kept(Descending(appraisals.Keys), appraisals, kind);
      ghost var limit := Limit(reqCount);
      var remaining := appraisals.Keys;
      result := [];
      var queriedCount := 0;
      while remaining != {}
        invariant LatestInv(total, result, remaining, appraisals, kind, limit)
        decreases remaining
      {
        MaxExists(remaining);
        var key :| IsMax(key, remaining);
        LatestStep(total, result, remaining, key, appraisals, kind, limit);
        remaining := remaining - {key};
        var a := appraisals[key];
        if a.Private {
          continue;
        }
        if kind != "" && a.Kind != kind {
          continue;
        }
        result := result + [a];
        if |result| >= reqCount {
          return;
        }
        if queriedCount >= reqCount * 10 {
          return;
        }
      }
      LatestDone(total, result, appraisals, kind, limit);
    }

    /**
      `LatestAppraisalsByUser`: seeks the user's hash followed by ":" and
      the `after` ID (or ";" for no `after`), then walks the by-user index
      backwards from there while keys carry the hash, collecting the
      appraisals of the kind asked for. `failed` is the decoding error of a
      missing appraisal; the entries collected until then are returned too.
    */
    method LatestAppraisalsByUser(codec: IDCodec, user: User, reqCount: int, kind: string, after: string)
      returns (result: seq<Appraisal>, failed: bool)
      requires reqCount >= 0
      ensures var below := Below(byUser, SeekKey(codec, user.CharacterOwnerHash, after));
        && (forall k :: k in Descending(below) ==> k in byUser)
        && Scan(result, failed)
           == ScanUser(Descending(below), byUser, appraisals, StrBytes(user.CharacterOwnerHash), kind, Limit(reqCount), [])
    {
      var hash := StrBytes(user.CharacterOwnerHash);
      var seek := SeekKey(codec, user.CharacterOwnerHash, after);
      var remaining := Below(byUser, seek);
      DescendingMembers(remaining);
      ghost var total := ScanUser(Descending(remaining), byUser, appraisals, hash, kind, Limit(reqCount), []);
      ghost var limit := Limit(reqCount);
      result := [];
      failed := false;
      var queriedCount := 0;
      while true
        invariant ScanInv(total, result, remaining, byUser, appraisals, hash, kind, limit)
        decreases remaining
      {
        if remaining == {} {
          // the cursor is exhausted: a nil key, whose nil value fails to decode
          ScanUserDone(total, result, byUser, appraisals, hash, kind, limit);
          failed := hash == [];
          return;
        }
        MaxExists(remaining);
        var key :| IsMax(key, remaining);
        ScanUserStep(total, result, remaining, key, byUser, appraisals, hash, kind, limit);
        remaining := remaining - {key};
        if !HasPrefix(key, hash) {
          return;
        }
        var val := byUser[key];
        if val !in appraisals {
          failed := true;
          return;
        }
        var a := appraisals[val];
        if kind != "" && a.Kind != kind {
          continue;
        }
        result := result + [a];
        if |result| >= reqCount {
          return;
        }
        if queriedCount >= reqCount * 10 {
          return;
        }
      }
    }
  }
}
