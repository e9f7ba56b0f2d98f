/**
Management of a channel that holds many keys (controller/channel.go, model/channel.go). The
stored form is one key string beside three sparse maps indexed by key position; what it
shows is a plain list of per-key records.
*/
module MultiKey {
  import opened Prelude
  import opened LineText
  import opened KeyText

  const ENABLED := 1
  const MANUALLY_DISABLED := 2
  const AUTO_DISABLED := 3

  datatype ChannelInfo = ChannelInfo(
    size: int, statusList: map<int, int>, disabledTime: map<int, int>, disabledReason: map<int, string>)

  /** What is known about one key. */
  datatype Record = Record(key: Key, status: int, time: Option<int>, reason: Option<string>)

  function Lookup<T>(m: map<int, T>, i: int): Option<T> {
    if i in m then Some(m[i]) else None
  }

  function StatusIn(statusList: map<int, int>, i: int): int {
    if i in statusList then statusList[i] else ENABLED
  }

  function StatusAt(info: ChannelInfo, i: int): int { StatusIn(info.statusList, i) }

  function RecordAt(key: Key, info: ChannelInfo, i: int): Record {
    Record(key, StatusAt(info, i), Lookup(info.disabledTime, i), Lookup(info.disabledReason, i))
  }

  function Records(keys: seq<Key>, info: ChannelInfo): seq<Record> {
    seq(|keys|, i requires 0 <= i < |keys| => RecordAt(keys[i], info, i))
  }

  // ----- the plain list of records -----

  datatype Action =
    | DisableKey(index: Option<int>)
    | EnableKey(index: Option<int>)
    | EnableAllKeys
    | DisableAllKeys
    | DeleteKey(index: Option<int>)
    | DeleteDisabledKeys

  function Fresh(r: Record): Record { Record(r.key, ENABLED, None, None) }

  function Settle(r: Record): Record { if r.status == ENABLED then Fresh(r) else r }

  function Disabled(r: Record): Record {
    if r.status == ENABLED then r.(status := MANUALLY_DISABLED) else r
  }

  function MapRecords(rs: seq<Record>, f: Record -> Record): (r: seq<Record>)
    ensures |r| == |rs| && forall i :: 0 <= i < |rs| ==> r[i] == f(rs[i])
  {
    seq(|rs|, i requires 0 <= i < |rs| => f(rs[i]))
  }

  predicate InRange(index: Option<int>, rs: seq<Record>) {
    index.Some? && 0 <= index.value < |rs|
  }

  /** The records that are not auto-disabled, in order; an enabled one carries nothing over. */
  function Purged(rs: seq<Record>): seq<Record> {
    if rs == [] then []
    else
      var k := |rs| - 1;
      Purged(rs[..k]) + if rs[k].status == AUTO_DISABLED then [] else [Settle(rs[k])]
  }

  predicate SomeAuto(rs: seq<Record>) {
    exists i :: 0 <= i < |rs| && rs[i].status == AUTO_DISABLED
  }

  predicate AllAuto(rs: seq<Record>) {
    rs != [] && forall i :: 0 <= i < |rs| ==> rs[i].status == AUTO_DISABLED
  }

  /** What each action is meant to do. */
  function IdealStep(rs: seq<Record>, a: Action): seq<Record> {
    match a
    case DisableKey(index) =>
      if InRange(index, rs) then rs[index.value := rs[index.value].(status := MANUALLY_DISABLED)] else rs
    case EnableKey(index) =>
      if InRange(index, rs) then rs[index.value := Fresh(rs[index.value])] else rs
    case EnableAllKeys => MapRecords(rs, Fresh)
    case DisableAllKeys => MapRecords(rs, Disabled)
    case DeleteKey(index) =>
      if InRange(index, rs) && |rs| > 1 then rs[..index.value] + rs[index.value + 1..] else rs
    case DeleteDisabledKeys => if SomeAuto(rs) then Purged(rs) else rs
  }

  function IdealRun(rs: seq<Record>, actions: seq<Action>): seq<Record> {
    if actions == [] then rs else IdealStep(IdealRun(rs, actions[..|actions| - 1]), actions[|actions| - 1])
  }

  function KeysOf(rs: seq<Record>): (keys: seq<Key>)
    ensures |keys| == |rs| && forall i :: 0 <= i < |rs| ==> keys[i] == rs[i].key
  {
    seq(|rs|, i requires 0 <= i < |rs| => rs[i].key)
  }

  // ----- what the actions mean to each other -----

  /** Enabling a key leaves no trace of its having been disabled: the record is that of a key never touched. */
  lemma EnabledAnew(rs: seq<Record>, i: nat)
    requires i < |rs|
    ensures var t := IdealStep(rs, EnableKey(Some(i)));
            |t| == |rs| && t[i] == Record(rs[i].key, 1, None, None) && forall j :: 0 <= j < |rs| && j != i ==> t[j] == rs[j]
    ensures rs[i] == Record(rs[i].key, 1, None, None) ==>
      IdealStep(IdealStep(rs, DisableKey(Some(i))), EnableKey(Some(i))) == rs
  {
  }

  /** Disabling a key by hand changes its status and nothing else, and a purge does not take it. */
  lemma DisabledByHand(rs: seq<Record>, i: nat)
    requires i < |rs|
    ensures var t := IdealStep(rs, DisableKey(Some(i)));
            |t| == |rs| && t[i] == rs[i].(status := 2) && forall j :: 0 <= j < |rs| && j != i ==> t[j] == rs[j]
    ensures i in Survivors(IdealStep(rs, DisableKey(Some(i))))
  {
    SurvivorsInOrder(IdealStep(rs, DisableKey(Some(i))));
  }

  /** A purge takes a key exactly when its status is three. */
  lemma PurgeTakes(rs: seq<Record>, i: nat)
    requires i < |rs|
    ensures i !in Survivors(rs) <==> rs[i].status == 3
  {
    SurvivorsInOrder(rs);
  }

  function EnableEach(n: nat): seq<Action> {
    if n == 0 then [] else EnableEach(n - 1) + [EnableKey(Some(n - 1))]
  }

  /** Enabling all keys is enabling each of them. */
  lemma EnableAllIsEach(rs: seq<Record>)
    ensures IdealStep(rs, EnableAllKeys) == IdealRun(rs, EnableEach(|rs|))
  {
    EnabledUpTo(rs, |rs|);
  }

  lemma {:induction false} EnabledUpTo(rs: seq<Record>, n: nat)
    requires n <= |rs|
    ensures var t := IdealRun(rs, EnableEach(n));
            |t| == |rs| && forall j :: 0 <= j < |rs| ==> t[j] == if j < n then Fresh(rs[j]) else rs[j]
  {
    if n > 0 {
      EnabledUpTo(rs, n - 1);
      assert EnableEach(n)[..|EnableEach(n)| - 1] == EnableEach(n - 1);
    }
  }

  /** Disabling all keys disables by hand those that are enabled, and leaves the others as they are. */
  lemma DisableAllLeaves(rs: seq<Record>)
    ensures var t := IdealStep(rs, DisableAllKeys);
            && |t| == |rs| && (forall j :: 0 <= j < |rs| ==> t[j] == if rs[j].status == 1 then rs[j].(status := 2) else rs[j])
            && IdealStep(t, DisableAllKeys) == t
  {
  }

  /** A deleted key put back where it was gives the list there was; the last key stays. */
  lemma DeletedPutBack(rs: seq<Record>, i: nat)
    requires i < |rs|
    ensures var t := IdealStep(rs, DeleteKey(Some(i)));
            if |rs| == 1 then t == rs else |t| == |rs| - 1 && t[..i] + [rs[i]] + t[i..] == rs
  {
  }

  // ----- a purge of the plain list -----

  lemma {:induction false} PurgedAllAuto(rs: seq<Record>)
    ensures Purged(rs) == [] <==> rs == [] || AllAuto(rs)
  {
    if rs != [] {
      var k := |rs| - 1;
      PurgedAllAuto(rs[..k]);
      assert rs == rs[..k] + [rs[k]];
    }
  }

  /** The positions that survive a purge. */
  function Survivors(rs: seq<Record>): seq<nat> {
    if rs == [] then []
    else
      var k := |rs| - 1;
      Survivors(rs[..k]) + if rs[k].status == AUTO_DISABLED then [] else [k]
  }

  lemma SurvivorsSnoc(rs: seq<Record>, i: nat)
    requires i < |rs|
    ensures Survivors(rs[..i + 1]) == if rs[i].status == AUTO_DISABLED then Survivors(rs[..i]) else Survivors(rs[..i]) + [i]
  {
    assert rs[..i + 1][..i] == rs[..i];
    EmptyConcat(Survivors(rs[..i]));
  }

  /** A purge keeps exactly the keys that are not auto-disabled, in their order, with their state. */
  lemma PurgedSurvivors(rs: seq<Record>)
    ensures var at := Survivors(rs);
            && |Purged(rs)| == |at|
            && (forall j :: 0 <= j < |at| ==> at[j] < |rs| && Purged(rs)[j] == Settle(rs[at[j]]))
            && (forall j, l :: 0 <= j < l < |at| ==> at[j] < at[l])
            && (forall i :: 0 <= i < |rs| ==> (i in at <==> rs[i].status != AUTO_DISABLED))
  {
    SurvivorsInOrder(rs);
    SurvivorsKept(rs);
  }

  lemma {:induction false} SurvivorsInOrder(rs: seq<Record>)
    ensures forall j :: 0 <= j < |Survivors(rs)| ==> Survivors(rs)[j] < |rs|
    ensures forall j, l :: 0 <= j < l < |Survivors(rs)| ==> Survivors(rs)[j] < Survivors(rs)[l]
    ensures forall i :: 0 <= i < |rs| ==> (i in Survivors(rs) <==> rs[i].status != AUTO_DISABLED)
  {
    if rs != [] {
      var k := |rs| - 1;
      SurvivorsInOrder(rs[..k]);
      assert forall i :: 0 <= i < k ==> rs[..k][i] == rs[i];
    }
  }

  lemma {:induction false} SurvivorsKept(rs: seq<Record>)
    ensures |Purged(rs)| == |Survivors(rs)|
    ensures forall j :: 0 <= j < |Survivors(rs)| ==> Survivors(rs)[j] < |rs| && Purged(rs)[j] == Settle(rs[Survivors(rs)[j]])
  {
    if rs != [] {
      var k := |rs| - 1;
      SurvivorsKept(rs[..k]);
      assert forall i :: 0 <= i < k ==> rs[..k][i] == rs[i];
    }
  }

  lemma {:induction false} SurvivorsCount(rs: seq<Record>)
    ensures |Survivors(rs)| <= |rs| && (|Survivors(rs)| < |rs| <==> SomeAuto(rs))
  {
    if rs != [] {
      var k := |rs| - 1;
      SurvivorsCount(rs[..k]);
      assert rs == rs[..k] + [rs[k]];
    }
  }

  // ----- the stored form -----

  datatype Stored = Stored(key: seq<Byte>, info: ChannelInfo)

  /** The records that a stored channel shows. */
  function Shows(decode: Decoder, s: Stored): seq<Record> {
    Records(GetKeys(decode, s.key), s.info)
  }

  /** What a save keeps of the maps beside a key string: the size is counted afresh, and statuses
      beyond it are dropped. */
  function Saved(decode: Decoder, key: seq<Byte>, info: ChannelInfo): ChannelInfo {
    var size := CountKeys(decode, key);
    info.(size := size, statusList := map i | i in info.statusList && i < size :: info.statusList[i])
  }

  /** A save: an empty key string is not written. */
  function Save(decode: Decoder, s: Stored, key: seq<Byte>, info: ChannelInfo): Stored {
    var written := if key != [] then key else s.key;
    Stored(written, Saved(decode, written, info))
  }

  function Pick<T>(list: seq<T>, at: seq<nat>): (r: seq<T>)
    requires forall j :: 0 <= j < |at| ==> at[j] < |list|
    ensures |r| == |at|
  {
    seq(|at|, j requires 0 <= j < |at| => list[at[j]])
  }

  /** The maps of the keys at some positions, moved to their new positions. */
  function Reindex(info: ChannelInfo, at: seq<nat>): ChannelInfo {
    ChannelInfo(0, Moved(NotEnabled(info.statusList), at), Moved(info.disabledTime, at), Moved(info.disabledReason, at))
  }

  function Moved<T>(m: map<int, T>, at: seq<nat>): map<int, T> {
    map j | 0 <= j < |at| && at[j] in m :: m[at[j]]
  }

  function NotEnabled(statusList: map<int, int>): map<int, int> {
    map i | i in statusList && statusList[i] != ENABLED :: statusList[i]
  }

  /** The maps without the time and reason of an enabled key. */
  function Settled(info: ChannelInfo): ChannelInfo {
    info.(disabledTime := map i | i in info.disabledTime && StatusAt(info, i) != ENABLED :: info.disabledTime[i],
          disabledReason := map i | i in info.disabledReason && StatusAt(info, i) != ENABLED :: info.disabledReason[i])
  }

  /** The positions below n other than k. */
  function Others(n: nat, k: int): seq<nat> {
    if n == 0 then [] else Others(n - 1, k) + if n - 1 == k then [] else [n - 1]
  }

  predicate Below(s: Stored, index: Option<int>) {
    index.Some? && 0 <= index.value < s.info.size
  }

  function AllDisabled(info: ChannelInfo): map<int, int> {
    info.statusList + map i | 0 <= i < info.size && StatusAt(info, i) == ENABLED :: MANUALLY_DISABLED
  }

  /** The keys and maps that a purge leaves. */
  function LeftKeys(decode: Decoder, s: Stored): seq<Key> {
    SurvivorsInOrder(Shows(decode, s));
    Pick(GetKeys(decode, s.key), Survivors(Shows(decode, s)))
  }

  function LeftInfo(decode: Decoder, s: Stored): ChannelInfo {
    Reindex(Settled(s.info), Survivors(Shows(decode, s)))
  }

  /** What an action does to the stored channel. */
  function StoredStep(decode: Decoder, s: Stored, a: Action): Stored {
    match a
    case DisableKey(index) =>
      if !Below(s, index) then s
      else Save(decode, s, s.key, s.info.(statusList := s.info.statusList[index.value := MANUALLY_DISABLED]))
    case EnableKey(index) =>
      if !Below(s, index) then s
      else Save(decode, s, s.key, s.info.(statusList := s.info.statusList - {index.value},
                                          disabledTime := s.info.disabledTime - {index.value},
                                          disabledReason := s.info.disabledReason - {index.value}))
    case EnableAllKeys =>
      Save(decode, s, s.key, s.info.(statusList := map[], disabledTime := map[], disabledReason := map[]))
    case DisableAllKeys =>
      if forall i :: 0 <= i < s.info.size ==> StatusAt(s.info, i) != ENABLED then s
      else Save(decode, s, s.key, s.info.(statusList := AllDisabled(s.info)))
    case DeleteKey(index) => if Below(s, index) then WithoutKeyAt(decode, s, index.value) else s
    case DeleteDisabledKeys => WithoutAuto(decode, s)
  }

  function WithoutKeyAt(decode: Decoder, s: Stored, k: int): Stored {
    var keys := GetKeys(decode, s.key);
    var at := Others(|keys|, k);
    OthersBelow(|keys|, k);
    if at == [] then s else Save(decode, s, Join(Pick(keys, at)), Reindex(s.info, at))
  }

  function WithoutAuto(decode: Decoder, s: Stored): Stored {
    if |Survivors(Shows(decode, s))| == |GetKeys(decode, s.key)| then s
    else Save(decode, s, Join(LeftKeys(decode, s)), LeftInfo(decode, s))
  }

  lemma {:induction false} OthersBelow(n: nat, k: int)
    ensures forall j :: 0 <= j < |Others(n, k)| ==> Others(n, k)[j] < n
    ensures |Others(n, k)| == if 0 <= k < n then n - 1 else n
    ensures forall j :: 0 <= j < |Others(n, k)| ==> Others(n, k)[j] == if 0 <= k <= j then j + 1 else j
  {
    if n > 0 {
      OthersBelow(n - 1, k);
    }
  }

  function StoredRun(decode: Decoder, s: Stored, actions: seq<Action>): Stored {
    if actions == [] then s
    else StoredStep(decode, StoredRun(decode, s, actions[..|actions| - 1]), actions[|actions| - 1])
  }

  // ----- what a save shows -----

  lemma SameRecords(keys: seq<Key>, a: ChannelInfo, b: ChannelInfo)
    requires forall i :: 0 <= i < |keys| ==> RecordAt(keys[i], a, i) == RecordAt(keys[i], b, i)
    ensures Records(keys, a) == Records(keys, b)
  {
  }

  /** A save shows its maps beside the keys that are read back. */
  lemma SaveShows(decode: Decoder, s: Stored, key: seq<Byte>, info: ChannelInfo)
    ensures var t := Save(decode, s, key, info); Shows(decode, t) == Records(GetKeys(decode, t.key), info)
  {
    var t := Save(decode, s, key, info);
    CountedIff(decode, t.key);
    SameRecords(GetKeys(decode, t.key), t.info, info);
  }

  /** A save drops exactly the statuses at or beyond the number of keys it counts. */
  lemma SaveTrims(decode: Decoder, s: Stored, key: seq<Byte>, info: ChannelInfo, i: int)
    ensures var t := Save(decode, s, key, info);
            && t.key == (if key == [] then s.key else key) && t.info.size == CountKeys(decode, t.key)
            && Lookup(t.info.statusList, i) == (if i < t.info.size then Lookup(info.statusList, i) else None)
            && t.info.disabledTime == info.disabledTime && t.info.disabledReason == info.disabledReason
  {
  }

  lemma ReindexRecords(keys: seq<Key>, info: ChannelInfo, at: seq<nat>)
    requires forall j :: 0 <= j < |at| ==> at[j] < |keys|
    ensures Records(Pick(keys, at), Reindex(info, at)) == Pick(Records(keys, info), at)
  {
  }

  lemma SettledRecords(keys: seq<Key>, info: ChannelInfo)
    ensures Records(keys, Settled(info)) == MapRecords(Records(keys, info), Settle)
  {
    assert forall i :: StatusAt(Settled(info), i) == StatusAt(info, i);
    forall i | 0 <= i < |keys|
      ensures RecordAt(keys[i], Settled(info), i) == Settle(RecordAt(keys[i], info, i))
    {
      var was, now := RecordAt(keys[i], info, i), RecordAt(keys[i], Settled(info), i);
      if was.status == ENABLED {
        assert now.time == None && now.reason == None;
      }
    }
  }

  lemma KeysDecide(keys: seq<Key>, a: ChannelInfo, others: seq<Key>, b: ChannelInfo)
    requires Records(keys, a) == Records(others, b)
    ensures keys == others
  {
    assert forall i :: 0 <= i < |keys| ==> keys[i] == Records(keys, a)[i].key;
    assert forall i :: 0 <= i < |others| ==> others[i] == Records(others, b)[i].key;
    assert |keys| == |others|;
  }

  /** Keys that a channel writes show their records exactly when they are read back: when they are
      readable, or, for the one list whose string is empty and so not written, when the channel had
      just that list. */
  ghost predicate ReadsBack(decode: Decoder, s: Stored, keys: seq<Key>) {
    if Join(keys) == [] then keys == GetKeys(decode, s.key) else Readable(decode, keys)
  }

  lemma WrittenShowsIff(decode: Decoder, s: Stored, keys: seq<Key>, info: ChannelInfo)
    ensures Shows(decode, Save(decode, s, Join(keys), info)) == Records(keys, info) <==> ReadsBack(decode, s, keys)
  {
    var t := Save(decode, s, Join(keys), info);
    SaveShows(decode, s, Join(keys), info);
    StoredKeysIff(decode, keys);
    if Shows(decode, t) == Records(keys, info) {
      KeysDecide(GetKeys(decode, t.key), info, keys, info);
    }
  }

  // ----- when an action does what is meant -----

  /** What can be checked before an action: the keys it speaks of lie below the recorded size, and
      the keys that a deletion leaves are some and are read back. */
  ghost predicate Fits(decode: Decoder, s: Stored, a: Action) {
    var rs, keys := Shows(decode, s), GetKeys(decode, s.key);
    match a
    case DisableKey(index) => InRange(index, rs) && !Below(s, index) ==> rs[index.value].status == MANUALLY_DISABLED
    case EnableKey(index) => InRange(index, rs) && !Below(s, index) ==> rs[index.value] == Fresh(rs[index.value])
    case EnableAllKeys => true
    case DisableAllKeys => forall i :: 0 <= i < |rs| && i >= s.info.size ==> rs[i].status != ENABLED
    case DeleteKey(index) =>
      OthersBelow(|keys|, if index.Some? then index.value else 0);
      if Below(s, index) then
        var at := Others(|keys|, index.value);
        at == [] || ReadsBack(decode, s, Pick(keys, at))
      else !(InRange(index, rs) && |rs| > 1)
    case DeleteDisabledKeys =>
      SomeAuto(rs) ==> !AllAuto(rs) && Readable(decode, LeftKeys(decode, s))
  }

  lemma DisableKeyIff(decode: Decoder, s: Stored, index: Option<int>)
    ensures Shows(decode, StoredStep(decode, s, DisableKey(index))) == IdealStep(Shows(decode, s), DisableKey(index))
       <==> Fits(decode, s, DisableKey(index))
  {
    var rs, keys := Shows(decode, s), GetKeys(decode, s.key);
    if Below(s, index) {
      var info := s.info.(statusList := s.info.statusList[index.value := MANUALLY_DISABLED]);
      SaveShows(decode, s, s.key, info);
      assert Records(keys, info) == IdealStep(rs, DisableKey(index));
    } else if InRange(index, rs) {
      assert IdealStep(rs, DisableKey(index))[index.value] == rs[index.value].(status := MANUALLY_DISABLED);
    }
  }

  lemma EnableKeyIff(decode: Decoder, s: Stored, index: Option<int>)
    ensures Shows(decode, StoredStep(decode, s, EnableKey(index))) == IdealStep(Shows(decode, s), EnableKey(index))
       <==> Fits(decode, s, EnableKey(index))
  {
    var rs, keys := Shows(decode, s), GetKeys(decode, s.key);
    if Below(s, index) {
      var info := s.info.(statusList := s.info.statusList - {index.value},
                          disabledTime := s.info.disabledTime - {index.value},
                          disabledReason := s.info.disabledReason - {index.value});
      SaveShows(decode, s, s.key, info);
      assert Records(keys, info) == IdealStep(rs, EnableKey(index));
    } else if InRange(index, rs) {
      assert IdealStep(rs, EnableKey(index))[index.value] == Fresh(rs[index.value]);
    }
  }

  lemma EnableAllMeant(decode: Decoder, s: Stored)
    ensures Shows(decode, StoredStep(decode, s, EnableAllKeys)) == IdealStep(Shows(decode, s), EnableAllKeys)
  {
    SaveShows(decode, s, s.key, s.info.(statusList := map[], disabledTime := map[], disabledReason := map[]));
  }

  lemma DisableAllIff(decode: Decoder, s: Stored)
    ensures Shows(decode, StoredStep(decode, s, DisableAllKeys)) == IdealStep(Shows(decode, s), DisableAllKeys)
       <==> Fits(decode, s, DisableAllKeys)
  {
    var rs, keys := Shows(decode, s), GetKeys(decode, s.key);
    var t := StoredStep(decode, s, DisableAllKeys);
    var info := s.info.(statusList := AllDisabled(s.info));
    SaveShows(decode, s, s.key, info);
    forall i | 0 <= i < |rs|
      ensures |Shows(decode, t)| == |rs|
      ensures Shows(decode, t)[i] == if i < s.info.size then Disabled(rs[i]) else rs[i]
    {
      assert Records(keys, info)[i] == if i < s.info.size then Disabled(rs[i]) else rs[i];
    }
    var ideal := MapRecords(rs, Disabled);
    assert forall i :: 0 <= i < |rs| ==> (ideal[i] == rs[i] <==> rs[i].status != ENABLED);
  }

  lemma WithoutOne(rs: seq<Record>, index: Option<int>)
    requires index.Some?
    ensures forall j :: 0 <= j < |Others(|rs|, index.value)| ==> Others(|rs|, index.value)[j] < |rs|
    ensures Others(|rs|, index.value) == [] ==> IdealStep(rs, DeleteKey(index)) == rs
    ensures Others(|rs|, index.value) != [] ==> IdealStep(rs, DeleteKey(index)) == Pick(rs, Others(|rs|, index.value))
  {
    OthersBelow(|rs|, index.value);
  }

  lemma DeleteKeyIff(decode: Decoder, s: Stored, index: Option<int>)
    ensures Shows(decode, StoredStep(decode, s, DeleteKey(index))) == IdealStep(Shows(decode, s), DeleteKey(index))
       <==> Fits(decode, s, DeleteKey(index))
  {
    var rs, keys := Shows(decode, s), GetKeys(decode, s.key);
    if Below(s, index) {
      var at := Others(|keys|, index.value);
      WithoutOne(rs, index);
      if at != [] {
        ReindexRecords(keys, s.info, at);
        WrittenShowsIff(decode, s, Pick(keys, at), Reindex(s.info, at));
      }
    } else if InRange(index, rs) && |rs| > 1 {
      assert |IdealStep(rs, DeleteKey(index))| == |rs| - 1;
    }
  }

  lemma LeftShows(decode: Decoder, s: Stored)
    ensures Records(LeftKeys(decode, s), LeftInfo(decode, s)) == Purged(Shows(decode, s))
  {
    var keys, rs := GetKeys(decode, s.key), Shows(decode, s);
    PurgedSurvivors(rs);
    SettledRecords(keys, s.info);
    ReindexRecords(keys, Settled(s.info), Survivors(rs));
  }

  lemma LeftCount(decode: Decoder, s: Stored)
    ensures |LeftKeys(decode, s)| == |Survivors(Shows(decode, s))| <= |GetKeys(decode, s.key)|
    ensures |LeftKeys(decode, s)| < |GetKeys(decode, s.key)| <==> SomeAuto(Shows(decode, s))
  {
    SurvivorsCount(Shows(decode, s));
  }

  lemma {:induction false} NoSurvivors(rs: seq<Record>)
    ensures Survivors(rs) == [] <==> rs == [] || AllAuto(rs)
  {
    SurvivorsInOrder(rs);
    if rs != [] && !AllAuto(rs) {
      var i :| 0 <= i < |rs| && rs[i].status != AUTO_DISABLED;
      assert i in Survivors(rs);
    }
    assert Survivors(rs) != [] ==> Survivors(rs)[0] in Survivors(rs);
  }

  lemma PurgeStep(decode: Decoder, s: Stored)
    requires SomeAuto(Shows(decode, s))
    ensures WithoutAuto(decode, s) == Save(decode, s, Join(LeftKeys(decode, s)), LeftInfo(decode, s))
  {
    LeftCount(decode, s);
  }

  lemma Cleared(keys: seq<Key>, info: ChannelInfo)
    ensures Records(keys, Reindex(Settled(info), [])) == MapRecords(Records(keys, info), Fresh)
  {
  }

  /** With no survivor the key string is not written and the cleared maps are: every key is back, enabled. */
  lemma AllAutoComeBack(decode: Decoder, s: Stored)
    requires AllAuto(Shows(decode, s))
    ensures Shows(decode, WithoutAuto(decode, s)) == MapRecords(Shows(decode, s), Fresh)
    ensures IdealStep(Shows(decode, s), DeleteDisabledKeys) == []
  {
    assert Shows(decode, s)[0].status == AUTO_DISABLED;
    PurgeStep(decode, s);
    NoSurvivors(Shows(decode, s));
    PurgedAllAuto(Shows(decode, s));
    assert LeftKeys(decode, s) == [] && LeftInfo(decode, s) == Reindex(Settled(s.info), []);
    SaveShows(decode, s, [], LeftInfo(decode, s));
    Cleared(GetKeys(decode, s.key), s.info);
  }

  lemma SurvivorsWrittenIff(decode: Decoder, s: Stored)
    requires SomeAuto(Shows(decode, s)) && !AllAuto(Shows(decode, s))
    ensures Shows(decode, WithoutAuto(decode, s)) == Purged(Shows(decode, s))
       <==> Readable(decode, LeftKeys(decode, s))
  {
    PurgeStep(decode, s);
    LeftShows(decode, s);
    LeftCount(decode, s);
    NoSurvivors(Shows(decode, s));
    WrittenShowsIff(decode, s, LeftKeys(decode, s), LeftInfo(decode, s));
    WrittenUnlessEmpty(decode, s, LeftKeys(decode, s));
  }

  lemma WrittenUnlessEmpty(decode: Decoder, s: Stored, left: seq<Key>)
    requires left != [] && |left| < |GetKeys(decode, s.key)|
    ensures ReadsBack(decode, s, left) <==> Readable(decode, left)
  {
    StoredKeysIff(decode, left);
  }

  lemma DeleteDisabledIff(decode: Decoder, s: Stored)
    ensures Shows(decode, StoredStep(decode, s, DeleteDisabledKeys)) == IdealStep(Shows(decode, s), DeleteDisabledKeys)
       <==> Fits(decode, s, DeleteDisabledKeys)
  {
    var rs := Shows(decode, s);
    SurvivorsCount(rs);
    if AllAuto(rs) {
      AllAutoComeBack(decode, s);
      assert rs[0].status == AUTO_DISABLED;
    } else if SomeAuto(rs) {
      SurvivorsWrittenIff(decode, s);
    }
  }

  /** An action on any stored channel shows what was meant exactly when it fits. */
  lemma StepAsMeantIff(decode: Decoder, s: Stored, a: Action)
    ensures Shows(decode, StoredStep(decode, s, a)) == IdealStep(Shows(decode, s), a) <==> Fits(decode, s, a)
  {
    match a
    case DisableKey(index) => DisableKeyIff(decode, s, index);
    case EnableKey(index) => EnableKeyIff(decode, s, index);
    case EnableAllKeys => EnableAllMeant(decode, s);
    case DisableAllKeys => DisableAllIff(decode, s);
    case DeleteKey(index) => DeleteKeyIff(decode, s, index);
    case DeleteDisabledKeys => DeleteDisabledIff(decode, s);
  }

  // ----- runs -----

  /** After every action of a run the stored channel shows the intended records. */
  ghost predicate AsMeantThroughout(decode: Decoder, s: Stored, actions: seq<Action>) {
    && Shows(decode, StoredRun(decode, s, actions)) == IdealRun(Shows(decode, s), actions)
    && (actions != [] ==> AsMeantThroughout(decode, s, actions[..|actions| - 1]))
  }

  ghost predicate FitsThroughout(decode: Decoder, s: Stored, actions: seq<Action>) {
    actions == [] ||
    var k := |actions| - 1;
    FitsThroughout(decode, s, actions[..k]) && Fits(decode, StoredRun(decode, s, actions[..k]), actions[k])
  }

  /** A run on any stored channel shows what was meant all along exactly when each action fits. */
  lemma {:induction false} RunAsMeantIff(decode: Decoder, s: Stored, actions: seq<Action>)
    ensures AsMeantThroughout(decode, s, actions) <==> FitsThroughout(decode, s, actions)
  {
    if actions != [] {
      var k := |actions| - 1;
      RunAsMeantIff(decode, s, actions[..k]);
      StepAsMeantIff(decode, StoredRun(decode, s, actions[..k]), actions[k]);
    }
  }

  // ----- channels that have been saved -----

  /** The size is the count that a save makes. */
  predicate Sized(decode: Decoder, s: Stored) {
    s.info.size == CountKeys(decode, s.key)
  }

  /** What can be checked on the records alone. */
  ghost predicate Keeps(decode: Decoder, rs: seq<Record>, a: Action) {
    match a
    case DeleteKey(index) => InRange(index, rs) && |rs| > 1 ==> Readable(decode, KeysOf(IdealStep(rs, a)))
    case DeleteDisabledKeys => SomeAuto(rs) ==> !AllAuto(rs) && Readable(decode, KeysOf(Purged(rs)))
    case _ => true
  }

  lemma SizedKept(decode: Decoder, s: Stored, a: Action)
    requires Sized(decode, s)
    ensures Sized(decode, StoredStep(decode, s, a))
  {
  }

  lemma KeysOfRecords(keys: seq<Key>, info: ChannelInfo)
    ensures KeysOf(Records(keys, info)) == keys
  {
  }

  lemma LeftOver(keys: seq<Key>, info: ChannelInfo, index: Option<int>)
    requires index.Some? && Others(|keys|, index.value) != []
    ensures forall j :: 0 <= j < |Others(|keys|, index.value)| ==> Others(|keys|, index.value)[j] < |keys|
    ensures KeysOf(IdealStep(Records(keys, info), DeleteKey(index))) == Pick(keys, Others(|keys|, index.value))
  {
    WithoutOne(Records(keys, info), index);
  }

  lemma DeleteFitsIff(decode: Decoder, s: Stored, index: Option<int>)
    requires Sized(decode, s)
    ensures Fits(decode, s, DeleteKey(index)) <==> Keeps(decode, Shows(decode, s), DeleteKey(index))
  {
    var keys := GetKeys(decode, s.key);
    CountedIff(decode, s.key);
    if Below(s, index) {
      var at := Others(|keys|, index.value);
      OthersBelow(|keys|, index.value);
      if at != [] {
        LeftOver(keys, s.info, index);
        WrittenUnlessEmpty(decode, s, Pick(keys, at));
      }
    }
  }

  lemma FitsIffKeeps(decode: Decoder, s: Stored, a: Action)
    requires Sized(decode, s)
    ensures Fits(decode, s, a) <==> Keeps(decode, Shows(decode, s), a)
  {
    CountedIff(decode, s.key);
    match a
    case DeleteKey(index) => DeleteFitsIff(decode, s, index);
    case DeleteDisabledKeys =>
      LeftShows(decode, s);
      KeysOfRecords(LeftKeys(decode, s), LeftInfo(decode, s));
    case _ =>
  }

  ghost predicate KeepsThroughout(decode: Decoder, rs: seq<Record>, actions: seq<Action>) {
    actions == [] ||
    var k := |actions| - 1;
    KeepsThroughout(decode, rs, actions[..k]) && Keeps(decode, IdealRun(rs, actions[..k]), actions[k])
  }

  lemma {:induction false} RunSized(decode: Decoder, s: Stored, actions: seq<Action>)
    requires Sized(decode, s)
    ensures Sized(decode, StoredRun(decode, s, actions))
  {
    if actions != [] {
      RunSized(decode, s, actions[..|actions| - 1]);
      SizedKept(decode, StoredRun(decode, s, actions[..|actions| - 1]), actions[|actions| - 1]);
    }
  }

  /** From a saved channel a run shows what was meant all along exactly when, on the plain list, no
      deletion leaves no key or keys that are not read back. */
  lemma {:induction false} SavedRunIff(decode: Decoder, s: Stored, actions: seq<Action>)
    requires Sized(decode, s)
    ensures AsMeantThroughout(decode, s, actions) <==> KeepsThroughout(decode, Shows(decode, s), actions)
  {
    if actions != [] {
      var k := |actions| - 1;
      var before := StoredRun(decode, s, actions[..k]);
      SavedRunIff(decode, s, actions[..k]);
      if AsMeantThroughout(decode, s, actions[..k]) {
        StepAsMeantIff(decode, before, actions[k]);
        RunSized(decode, s, actions[..k]);
        FitsIffKeeps(decode, before, actions[k]);
      }
    }
  }

  // ----- keys that are always read back -----

  /** No purge in the run meets a list in which every key is auto-disabled. */
  ghost predicate NeverAllAuto(rs: seq<Record>, actions: seq<Action>) {
    actions == [] ||
    var k := |actions| - 1;
    NeverAllAuto(rs, actions[..k]) && !(actions[k].DeleteDisabledKeys? && AllAuto(IdealRun(rs, actions[..k])))
  }

  lemma PurgedKeysPlain(rs: seq<Record>)
    requires PlainKeys(KeysOf(rs))
    ensures PlainKeys(KeysOf(Purged(rs)))
  {
    PurgedSurvivors(rs);
    forall j | 0 <= j < |Purged(rs)|
      ensures PlainKey(KeysOf(Purged(rs))[j])
    {
      assert KeysOf(Purged(rs))[j] == KeysOf(rs)[Survivors(rs)[j]];
    }
  }

  lemma IdealKeysPlain(rs: seq<Record>, a: Action)
    requires PlainKeys(KeysOf(rs))
    ensures PlainKeys(KeysOf(IdealStep(rs, a)))
  {
    var next := IdealStep(rs, a);
    if a.DeleteDisabledKeys? {
      PurgedKeysPlain(rs);
    } else if a.DeleteKey? {
      forall j | 0 <= j < |next|
        ensures PlainKey(KeysOf(next)[j])
      {
        assert next[j] in rs;
        var i :| 0 <= i < |rs| && rs[i] == next[j];
        assert KeysOf(rs)[i] == next[j].key;
      }
    } else {
      assert KeysOf(next) == KeysOf(rs);
    }
  }

  lemma {:induction false} PlainRun(rs: seq<Record>, actions: seq<Action>)
    requires PlainKeys(KeysOf(rs))
    ensures PlainKeys(KeysOf(IdealRun(rs, actions)))
  {
    if actions != [] {
      PlainRun(rs, actions[..|actions| - 1]);
      IdealKeysPlain(IdealRun(rs, actions[..|actions| - 1]), actions[|actions| - 1]);
    }
  }

  lemma PlainKeepsIff(decode: Decoder, rs: seq<Record>, a: Action)
    requires PlainKeys(KeysOf(rs))
    ensures Keeps(decode, rs, a) <==> !(a.DeleteDisabledKeys? && AllAuto(rs))
  {
    IdealKeysPlain(rs, a);
    PlainKeysStored(decode, KeysOf(IdealStep(rs, a)));
    if AllAuto(rs) {
      assert rs[0].status == AUTO_DISABLED;
    }
  }

  /** With visible one-line keys that open no array, only the purge of an all-auto-disabled list
      goes wrong. */
  lemma {:induction false} PlainRunIff(decode: Decoder, rs: seq<Record>, actions: seq<Action>)
    requires PlainKeys(KeysOf(rs))
    ensures KeepsThroughout(decode, rs, actions) <==> NeverAllAuto(rs, actions)
  {
    if actions != [] {
      var k := |actions| - 1;
      PlainRunIff(decode, rs, actions[..k]);
      PlainRun(rs, actions[..k]);
      PlainKeepsIff(decode, IdealRun(rs, actions[..k]), actions[k]);
    }
  }

  // ----- the maps stay inside the size -----

  ghost predicate InsideMap<T>(m: map<int, T>, n: nat) {
    forall i :: i in m ==> 0 <= i < n
  }

  /** No map speaks of a position that holds no key. */
  ghost predicate Inside(decode: Decoder, s: Stored) {
    var n := |GetKeys(decode, s.key)|;
    InsideMap(s.info.statusList, n) && InsideMap(s.info.disabledTime, n) && InsideMap(s.info.disabledReason, n)
  }

  lemma WrittenInside(decode: Decoder, s: Stored, left: seq<Key>, info: ChannelInfo, at: seq<nat>)
    requires |left| == |at| && GetKeys(decode, Save(decode, s, Join(left), Reindex(info, at)).key) == left
    ensures Inside(decode, Save(decode, s, Join(left), Reindex(info, at)))
  {
  }

  lemma ReadBackKeys(decode: Decoder, s: Stored, left: seq<Key>, info: ChannelInfo)
    requires ReadsBack(decode, s, left)
    ensures GetKeys(decode, Save(decode, s, Join(left), info).key) == left
  {
    StoredKeysIff(decode, left);
  }

  lemma DeletionInside(decode: Decoder, s: Stored, a: Action)
    requires Sized(decode, s) && Inside(decode, s) && Fits(decode, s, a) && (a.DeleteKey? || a.DeleteDisabledKeys?)
    ensures Inside(decode, StoredStep(decode, s, a))
  {
    var keys := GetKeys(decode, s.key);
    if a.DeleteDisabledKeys? {
      if SomeAuto(Shows(decode, s)) {
        PurgeStep(decode, s);
        LeftCount(decode, s);
        NoSurvivors(Shows(decode, s));
        WrittenUnlessEmpty(decode, s, LeftKeys(decode, s));
        ReadBackKeys(decode, s, LeftKeys(decode, s), LeftInfo(decode, s));
        WrittenInside(decode, s, LeftKeys(decode, s), Settled(s.info), Survivors(Shows(decode, s)));
      } else {
        LeftCount(decode, s);
      }
    } else if Below(s, a.index) {
      var at := Others(|keys|, a.index.value);
      OthersBelow(|keys|, a.index.value);
      if at != [] {
        ReadBackKeys(decode, s, Pick(keys, at), Reindex(s.info, at));
        WrittenInside(decode, s, Pick(keys, at), s.info, at);
      }
    }
  }

  /** An action that speaks of a position below the recorded size. */
  predicate Disables(s: Stored, a: Action) {
    a.DisableAllKeys? || (a.DisableKey? && Below(s, a.index))
  }

  /** An action that fits a saved channel keeps the maps inside the keys exactly when it does not disable
      keys of an empty JSON array, which is counted as one key. */
  lemma InsideKeptIff(decode: Decoder, s: Stored, a: Action)
    requires Sized(decode, s) && Inside(decode, s) && Fits(decode, s, a)
    ensures Inside(decode, StoredStep(decode, s, a))
       <==> CountKeys(decode, s.key) == |GetKeys(decode, s.key)| || !Disables(s, a)
  {
    CountedIff(decode, s.key);
    if a.DeleteKey? || a.DeleteDisabledKeys? {
      DeletionInside(decode, s, a);
    } else if Disables(s, a) && CountKeys(decode, s.key) > |GetKeys(decode, s.key)| {
      NoKeysDisabled(decode, s, a);
    }
  }

  lemma NoKeysDisabled(decode: Decoder, s: Stored, a: Action)
    requires Sized(decode, s) && Inside(decode, s) && Disables(s, a)
    requires GetKeys(decode, s.key) == [] && s.info.size > 0
    ensures !Inside(decode, StoredStep(decode, s, a))
  {
    var t := StoredStep(decode, s, a);
    var i := if a.DisableKey? then a.index.value else 0;
    assert StatusAt(s.info, 0) == ENABLED;
    assert i in t.info.statusList;
  }

  /** Disabling the one key that is counted in an empty array leaves a status without a key. */
  lemma EmptyArrayDisabled(decode: Decoder)
    requires decode([91, 93]) == Some([])
    ensures var s := Stored([91, 93], ChannelInfo(1, map[], map[], map[]));
            Sized(decode, s) && Inside(decode, s) && Fits(decode, s, DisableKey(Some(0)))
            && !Inside(decode, StoredStep(decode, s, DisableKey(Some(0))))
  {
    EmptyArrayCounted(decode);
    var s := Stored([91, 93], ChannelInfo(1, map[], map[], map[]));
    NoKeysDisabled(decode, s, DisableKey(Some(0)));
  }

  // ----- two lists that are not read back -----

  lemma TwoLines(a: Key, b: Key)
    ensures Unlines([a]) == a + [NEWLINE]
    ensures Unlines([a, b]) == a + [NEWLINE] + (b + [NEWLINE])
    ensures Join([a, b]) == a + [NEWLINE] + b && Join([a]) == a
  {
    assert [a][..0] == [];
    EmptyConcat(a + [NEWLINE]);
    EmptyConcat(a);
    assert [a, b][..1] == [a];
    Assoc(a + [NEWLINE], b, [NEWLINE]);
  }

  const BLANK_LINE: seq<Byte> := [97, NEWLINE, NEWLINE, 98]

  lemma BlankLineKeys(decode: Decoder)
    ensures GetKeys(decode, BLANK_LINE) == [[97], [], [98]] && CountKeys(decode, BLANK_LINE) == 3
  {
    var keys: seq<Key> := [[97], [], [98]];
    assert keys[..2] == [[97], []];
    TwoLines([97], []);
    assert Join(keys) == BLANK_LINE;
    StoredKeysIff(decode, keys);
    CountedIff(decode, BLANK_LINE);
  }

  lemma DeleteStep(decode: Decoder, s: Stored, k: int)
    requires 0 <= k < s.info.size
    ensures StoredStep(decode, s, DeleteKey(Some(k))) == WithoutKeyAt(decode, s, k)
  {
  }

  lemma BlankFirst(decode: Decoder)
    ensures Join([[], [98]]) == [NEWLINE, 98] && GetKeys(decode, [NEWLINE, 98]) == [[98]]
  {
    TwoLines([], [98]);
    EmptyConcat([NEWLINE]);
    assert [NEWLINE, 98][1..] == [98];
    assert TrimLeft([NEWLINE, 98], IsNewline) == [98] == TrimLeft([NEWLINE, 98], IsSpace);
    TrimNothing([98], IsNewline);
    Unbroken([98]);
  }

  /** A blank line between two keys is a key. Deleting the key before it leaves it at the front, where
      it is not read back: one key is shown instead of two, and a time kept for the second key
      has no key. */
  lemma BlankKeyLost(decode: Decoder, info: ChannelInfo)
    requires info.size == 3 && 2 in info.disabledTime
    ensures var s := Stored(BLANK_LINE, info);
            var t := StoredStep(decode, s, DeleteKey(Some(0)));
            && Sized(decode, s)
            && KeysOf(Shows(decode, t)) == [[98]] && !Inside(decode, t)
            && KeysOf(IdealStep(Shows(decode, s), DeleteKey(Some(0)))) == [[], [98]]
  {
    BlankLineKeys(decode);
    DeleteStep(decode, Stored(BLANK_LINE, info), 0);
    BlankMeant(decode, info);
    BlankShown(decode, info);
  }

  lemma BlankMeant(decode: Decoder, info: ChannelInfo)
    ensures KeysOf(IdealStep(Shows(decode, Stored(BLANK_LINE, info)), DeleteKey(Some(0)))) == [[], [98]]
  {
    BlankLineKeys(decode);
    var rs := Shows(decode, Stored(BLANK_LINE, info));
    assert IdealStep(rs, DeleteKey(Some(0))) == [rs[1], rs[2]];
  }

  lemma BlankShown(decode: Decoder, info: ChannelInfo)
    requires 2 in info.disabledTime
    ensures var t := WithoutKeyAt(decode, Stored(BLANK_LINE, info), 0);
            KeysOf(Shows(decode, t)) == [[98]] && !Inside(decode, t)
  {
    var t := WithoutKeyAt(decode, Stored(BLANK_LINE, info), 0);
    BlankDeleted(decode, info);
    BlankFirst(decode);
    KeysOfRecords([[98]], t.info);
    OthersBelow(3, 0);
    assert t.info.disabledTime == Moved(info.disabledTime, Others(3, 0));
    assert 1 in t.info.disabledTime;
  }

  lemma BlankDeleted(decode: Decoder, info: ChannelInfo)
    ensures WithoutKeyAt(decode, Stored(BLANK_LINE, info), 0)
         == Stored([NEWLINE, 98], Saved(decode, [NEWLINE, 98], Reindex(info, Others(3, 0))))
  {
    BlankLineKeys(decode);
    BlankFirst(decode);
    OthersBelow(3, 0);
    assert Pick(GetKeys(decode, BLANK_LINE), Others(3, 0)) == [[], [98]];
  }

  const ARRAY: seq<Byte> := [91, 49, 44, 123, NEWLINE, 125, 93]

  lemma BracesKeys(decode: Decoder)
    ensures GetKeys(decode, [123, NEWLINE, 125]) == [[123], [125]]
  {
    TwoLines([123], [125]);
    assert Join([[123], [125]]) == [123, NEWLINE, 125];
    StoredKeysIff(decode, [[123], [125]]);
  }

  /** An array whose second key runs over two lines. Deleting the first leaves that key alone in the
      string, and it is read back as two. */
  lemma LongKeySplit(decode: Decoder, info: ChannelInfo)
    requires decode(ARRAY) == Some([[49], [123, NEWLINE, 125]]) && info.size == 2
    ensures var s := Stored(ARRAY, info);
            && Sized(decode, s)
            && KeysOf(IdealStep(Shows(decode, s), DeleteKey(Some(0)))) == [[123, NEWLINE, 125]]
            && KeysOf(Shows(decode, StoredStep(decode, s, DeleteKey(Some(0))))) == [[123], [125]]
  {
    var rs := Shows(decode, Stored(ARRAY, info));
    assert GetKeys(decode, ARRAY) == [[49], [123, NEWLINE, 125]];
    assert IdealStep(rs, DeleteKey(Some(0))) == [rs[1]];
    LongKeyShown(decode, info);
  }

  lemma LongKeyShown(decode: Decoder, info: ChannelInfo)
    requires decode(ARRAY) == Some([[49], [123, NEWLINE, 125]])
    ensures KeysOf(Shows(decode, WithoutKeyAt(decode, Stored(ARRAY, info), 0))) == [[123], [125]]
  {
    assert GetKeys(decode, ARRAY) == [[49], [123, NEWLINE, 125]];
    BracesKeys(decode);
    OthersBelow(2, 0);
    TwoLines([123, NEWLINE, 125], []);
    assert Pick(GetKeys(decode, ARRAY), Others(2, 0)) == [[123, NEWLINE, 125]];
    KeysOfRecords([[123], [125]], WithoutKeyAt(decode, Stored(ARRAY, info), 0).info);
  }

  // ----- the loops -----

  function Put<T>(m: map<int, T>, n: nat, value: Option<T>): map<int, T> {
    if value.Some? then m[n := value.value] else m
  }

  /** The maps after one more position n, which gets a status (unless enabled), a time and a reason. */
  function Place(info: ChannelInfo, n: nat, status: int, time: Option<int>, reason: Option<string>): ChannelInfo {
    ChannelInfo(info.size, Put(info.statusList, n, if status != ENABLED then Some(status) else None),
                Put(info.disabledTime, n, time), Put(info.disabledReason, n, reason))
  }

  lemma MovedSnoc<T>(m: map<int, T>, at: seq<nat>, i: nat)
    ensures Moved(m, at + [i]) == Put(Moved(m, at), |at|, Lookup(m, i))
  {
    assert forall j :: 0 <= j < |at| ==> (at + [i])[j] == at[j];
  }

  lemma NotEnabledAt(info: ChannelInfo, i: int)
    ensures Lookup(NotEnabled(info.statusList), i) == if StatusAt(info, i) != ENABLED then Some(StatusAt(info, i)) else None
  {
  }

  lemma PlaceSnoc(info: ChannelInfo, at: seq<nat>, i: nat)
    ensures Reindex(info, at + [i])
         == Place(Reindex(info, at), |at|, StatusAt(info, i), Lookup(info.disabledTime, i), Lookup(info.disabledReason, i))
  {
    NotEnabledAt(info, i);
    MovedSnoc(NotEnabled(info.statusList), at, i);
    MovedSnoc(info.disabledTime, at, i);
    MovedSnoc(info.disabledReason, at, i);
  }

  lemma PickSnoc<T>(list: seq<T>, at: seq<nat>, i: nat)
    requires i < |list| && forall j :: 0 <= j < |at| ==> at[j] < |list|
    ensures Pick(list, at + [i]) == Pick(list, at) + [list[i]]
  {
  }

  /** What a rebuilding loop has collected from the first i keys. */
  ghost predicate Built(keys: seq<Key>, info: ChannelInfo, at: seq<nat>, i: nat, remaining: seq<Key>, kept: ChannelInfo) {
    i <= |keys| && AllBelow(at, i) && remaining == Pick(keys, at) && kept == Reindex(info, at)
  }

  ghost predicate AllBelow(at: seq<nat>, n: nat) {
    forall j :: 0 <= j < |at| ==> at[j] < n
  }

  lemma AllBelowSnoc(at: seq<nat>, i: nat)
    requires AllBelow(at, i)
    ensures AllBelow(at + [i], i + 1)
  {
  }

  lemma BuiltSnoc(keys: seq<Key>, info: ChannelInfo, at: seq<nat>, i: nat, remaining: seq<Key>, kept: ChannelInfo)
    requires i < |keys| && Built(keys, info, at, i, remaining, kept)
    ensures Built(keys, info, at + [i], i + 1, remaining + [keys[i]],
                  Place(kept, |remaining|, StatusAt(info, i), Lookup(info.disabledTime, i), Lookup(info.disabledReason, i)))
  {
    AllBelowSnoc(at, i);
    PickSnoc(keys, at, i);
    PlaceSnoc(info, at, i);
  }

  lemma BuiltSkip(keys: seq<Key>, info: ChannelInfo, at: seq<nat>, i: nat, remaining: seq<Key>, kept: ChannelInfo)
    requires i < |keys| && Built(keys, info, at, i, remaining, kept)
    ensures Built(keys, info, at, i + 1, remaining, kept)
  {
  }

  lemma NothingBuilt(keys: seq<Key>, info: ChannelInfo)
    ensures Built(keys, info, [], 0, [], ChannelInfo(0, map[], map[], map[]))
  {
  }

  lemma OthersSnoc(i: nat, k: int)
    ensures Others(i + 1, k) == if i == k then Others(i, k) else Others(i, k) + [i]
  {
    EmptyConcat(Others(i, k));
  }

  /** The keys and re-indexed maps without the key at one position. */
  method WithoutKey(keys: seq<Key>, info: ChannelInfo, keyIndex: nat) returns (remainingKeys: seq<Key>, kept: ChannelInfo)
    ensures Built(keys, info, Others(|keys|, keyIndex), |keys|, remainingKeys, kept)
  {
    remainingKeys, kept := [], ChannelInfo(0, map[], map[], map[]);
    NothingBuilt(keys, info);
    var newIndex := 0;
    for i := 0 to |keys|
      invariant newIndex == |remainingKeys| && Built(keys, info, Others(i, keyIndex), i, remainingKeys, kept)
    {
      OthersSnoc(i, keyIndex);
      if i == keyIndex {
        BuiltSkip(keys, info, Others(i, keyIndex), i, remainingKeys, kept);
        continue;
      }
      BuiltSnoc(keys, info, Others(i, keyIndex), i, remainingKeys, kept);
      remainingKeys := remainingKeys + [keys[i]];
      kept := Place(kept, newIndex, StatusAt(info, i), Lookup(info.disabledTime, i), Lookup(info.disabledReason, i));
      newIndex := newIndex + 1;
    }
  }

  /** What the purging loop has collected from the first i keys. */
  ghost predicate Purging(keys: seq<Key>, info: ChannelInfo, i: nat, remaining: seq<Key>, kept: ChannelInfo) {
    i <= |keys| && Built(keys, Settled(info), Survivors(Records(keys, info)[..i]), i, remaining, kept)
  }

  lemma PurgeDrops(keys: seq<Key>, info: ChannelInfo, i: nat, remaining: seq<Key>, kept: ChannelInfo)
    requires i < |keys| && Purging(keys, info, i, remaining, kept) && StatusAt(info, i) == AUTO_DISABLED
    ensures Purging(keys, info, i + 1, remaining, kept)
  {
    SurvivorsSnoc(Records(keys, info), i);
    BuiltSkip(keys, Settled(info), Survivors(Records(keys, info)[..i]), i, remaining, kept);
  }

  /** The state of a key that stays moves to its new position, unless the key is enabled. */
  function PlaceSettled(info: ChannelInfo, i: nat, newIndex: nat, kept: ChannelInfo): ChannelInfo {
    var status := StatusAt(info, i);
    if status == ENABLED then kept
    else Place(kept, newIndex, status, Lookup(info.disabledTime, i), Lookup(info.disabledReason, i))
  }

  lemma PurgeKeeps(keys: seq<Key>, info: ChannelInfo, i: nat, remaining: seq<Key>, kept: ChannelInfo)
    requires i < |keys| && Purging(keys, info, i, remaining, kept) && StatusAt(info, i) != AUTO_DISABLED
    ensures Purging(keys, info, i + 1, remaining + [keys[i]], PlaceSettled(info, i, |remaining|, kept))
  {
    SurvivorsSnoc(Records(keys, info), i);
    BuiltSnoc(keys, Settled(info), Survivors(Records(keys, info)[..i]), i, remaining, kept);
    SettledAt(info, i);
  }

  /** What the loop has collected from the first n keys. */
  function PurgedKeys(keys: seq<Key>, info: ChannelInfo, n: nat): (seq<Key>, ChannelInfo)
    requires n <= |keys|
  {
    if n == 0 then ([], ChannelInfo(0, map[], map[], map[]))
    else
      var (remaining, kept) := PurgedKeys(keys, info, n - 1);
      if StatusAt(info, n - 1) == AUTO_DISABLED then (remaining, kept)
      else (remaining + [keys[n - 1]], PlaceSettled(info, n - 1, |remaining|, kept))
  }

  lemma {:induction false} PurgedBuilt(keys: seq<Key>, info: ChannelInfo, n: nat)
    requires n <= |keys|
    ensures Purging(keys, info, n, PurgedKeys(keys, info, n).0, PurgedKeys(keys, info, n).1)
  {
    if n == 0 {
      PurgeStarts(keys, info);
    } else {
      PurgedBuilt(keys, info, n - 1);
      var (remaining, kept) := PurgedKeys(keys, info, n - 1);
      if StatusAt(info, n - 1) == AUTO_DISABLED {
        PurgeDrops(keys, info, n - 1, remaining, kept);
      } else {
        PurgeKeeps(keys, info, n - 1, remaining, kept);
      }
    }
  }

  /** The keys and re-indexed maps without the auto-disabled keys. */
  method WithoutAutoDisabled(keys: seq<Key>, info: ChannelInfo)
    returns (remainingKeys: seq<Key>, kept: ChannelInfo, deletedCount: nat)
    ensures Built(keys, Settled(info), Survivors(Records(keys, info)), |keys|, remainingKeys, kept)
    ensures deletedCount == |keys| - |remainingKeys|
  {
    remainingKeys, kept, deletedCount := [], ChannelInfo(0, map[], map[], map[]), 0;
    for i := 0 to |keys|
      invariant (remainingKeys, kept) == PurgedKeys(keys, info, i) && |remainingKeys| == i - deletedCount
    {
      if StatusAt(info, i) == AUTO_DISABLED {
        deletedCount := deletedCount + 1;
      } else {
        kept := PlaceSettled(info, i, |remainingKeys|, kept);
        remainingKeys := remainingKeys + [keys[i]];
      }
    }
    PurgedBuilt(keys, info, |keys|);
    PurgeEnds(keys, info, remainingKeys, kept);
  }

  lemma PurgeStarts(keys: seq<Key>, info: ChannelInfo)
    ensures Purging(keys, info, 0, [], ChannelInfo(0, map[], map[], map[]))
  {
    assert Records(keys, info)[..0] == [];
    NothingBuilt(keys, Settled(info));
  }

  lemma PurgeEnds(keys: seq<Key>, info: ChannelInfo, remaining: seq<Key>, kept: ChannelInfo)
    requires Purging(keys, info, |keys|, remaining, kept)
    ensures Built(keys, Settled(info), Survivors(Records(keys, info)), |keys|, remaining, kept)
  {
    assert Records(keys, info)[..|keys|] == Records(keys, info);
  }

  lemma SettledAt(info: ChannelInfo, i: int)
    ensures StatusAt(Settled(info), i) == StatusAt(info, i)
    ensures Lookup(Settled(info).disabledTime, i) == if StatusAt(info, i) == ENABLED then None else Lookup(info.disabledTime, i)
    ensures Lookup(Settled(info).disabledReason, i) == if StatusAt(info, i) == ENABLED then None else Lookup(info.disabledReason, i)
  {
  }

  method DisableEnabled(info: ChannelInfo) returns (statusList: map<int, int>, disabledCount: nat)
    ensures statusList == AllDisabled(info)
    ensures disabledCount == 0 <==> forall i :: 0 <= i < info.size ==> StatusAt(info, i) != ENABLED
  {
    statusList, disabledCount := info.statusList, 0;
    var i := 0;
    while i < info.size
      invariant 0 <= i
      invariant forall j :: j in statusList <==> j in info.statusList || (0 <= j < i && j < info.size)
      invariant forall j :: j in statusList ==>
        statusList[j] == if 0 <= j < i && j < info.size && StatusAt(info, j) == ENABLED then MANUALLY_DISABLED else StatusAt(info, j)
      invariant disabledCount == 0 <==> forall j :: 0 <= j < i && j < info.size ==> StatusAt(info, j) != ENABLED
    {
      var status := ENABLED;
      if i in statusList {
        status := statusList[i];
      }
      if status == ENABLED {
        statusList := statusList[i := MANUALLY_DISABLED];
        disabledCount := disabledCount + 1;
      }
      i := i + 1;
    }
  }

  lemma BuiltIsLeft(decode: Decoder, s: Stored, remaining: seq<Key>, kept: ChannelInfo)
    requires Built(GetKeys(decode, s.key), Settled(s.info), Survivors(Shows(decode, s)), |GetKeys(decode, s.key)|, remaining, kept)
    ensures remaining == LeftKeys(decode, s) && kept == LeftInfo(decode, s)
    ensures |remaining| <= |GetKeys(decode, s.key)| && (|remaining| < |GetKeys(decode, s.key)| <==> SomeAuto(Shows(decode, s)))
    ensures WithoutAuto(decode, s) == if SomeAuto(Shows(decode, s)) then Save(decode, s, Join(remaining), kept) else s
  {
    LeftCount(decode, s);
  }

  /** The purge of what a loop has collected, and when it is what was meant. */
  lemma PurgeOutcome(decode: Decoder, s: Stored, remaining: seq<Key>, kept: ChannelInfo)
    requires Built(GetKeys(decode, s.key), Settled(s.info), Survivors(Shows(decode, s)), |GetKeys(decode, s.key)|, remaining, kept)
    ensures |remaining| <= |GetKeys(decode, s.key)| && (|remaining| < |GetKeys(decode, s.key)| <==> SomeAuto(Shows(decode, s)))
    ensures StoredStep(decode, s, DeleteDisabledKeys)
         == if |remaining| < |GetKeys(decode, s.key)| then Save(decode, s, Join(remaining), kept) else s
    ensures Shows(decode, StoredStep(decode, s, DeleteDisabledKeys)) == IdealStep(Shows(decode, s), DeleteDisabledKeys)
       <==> Fits(decode, s, DeleteDisabledKeys)
  {
    BuiltIsLeft(decode, s, remaining, kept);
    DeleteDisabledIff(decode, s);
  }

  // ----- the channel object -----

  datatype Outcome = Done(count: int) | NoIndex | OutOfRange | NothingToDo | LastKey

  class Channel {
    const decode: Decoder
    var key: seq<Byte>
    var info: ChannelInfo

    ghost function State(): Stored
      reads this
    {
      Stored(key, info)
    }

    constructor (decode: Decoder, key: seq<Byte>, info: ChannelInfo)
      ensures this.decode == decode && State() == Stored(key, info)
    {
      this.decode, this.key, this.info := decode, key, info;
    }

    /** The save: an empty key string is not written, the size is counted afresh from the key
        string that will be stored, and statuses beyond it are dropped. */
    method Update(newKey: seq<Byte>, newInfo: ChannelInfo)
      modifies this
      ensures State() == Save(decode, old(State()), newKey, newInfo)
      ensures Sized(decode, State())
      ensures Shows(decode, State()) == Records(GetKeys(decode, key), newInfo)
    {
      SaveShows(decode, State(), newKey, newInfo);
      var keyStr := if newKey != [] then newKey else key;
      info := Saved(decode, keyStr, newInfo);
      if newKey != [] {
        key := newKey;
      }
    }

    method DisableKey(index: Option<int>) returns (r: Outcome)
      modifies this
      ensures State() == StoredStep(decode, old(State()), Action.DisableKey(index))
      ensures r.Done? <==> Below(old(State()), index)
    {
      if index.None? {
        return NoIndex;
      }
      var keyIndex := index.value;
      if keyIndex < 0 || keyIndex >= info.size {
        return OutOfRange;
      }
      Update(key, info.(statusList := info.statusList[keyIndex := MANUALLY_DISABLED]));
      return Done(1);
    }

    method EnableKey(index: Option<int>) returns (r: Outcome)
      modifies this
      ensures State() == StoredStep(decode, old(State()), Action.EnableKey(index))
      ensures r.Done? <==> Below(old(State()), index)
    {
      if index.None? {
        return NoIndex;
      }
      var keyIndex := index.value;
      if keyIndex < 0 || keyIndex >= info.size {
        return OutOfRange;
      }
      Update(key, info.(statusList := info.statusList - {keyIndex},
                        disabledTime := info.disabledTime - {keyIndex},
                        disabledReason := info.disabledReason - {keyIndex}));
      return Done(1);
    }

    method EnableAllKeys() returns (r: Outcome)
      modifies this
      ensures State() == StoredStep(decode, old(State()), Action.EnableAllKeys)
      ensures r == Done(|old(info).statusList|)
    {
      var enabledCount := |info.statusList|;
      Update(key, info.(statusList := map[], disabledTime := map[], disabledReason := map[]));
      return Done(enabledCount);
    }

    method DisableAllKeys() returns (r: Outcome)
      modifies this
      ensures State() == StoredStep(decode, old(State()), Action.DisableAllKeys)
      ensures r == NothingToDo <==> forall i :: 0 <= i < old(info).size ==> StatusAt(old(info), i) != ENABLED
    {
      var statusList, disabledCount := DisableEnabled(info);
      if disabledCount == 0 {
        return NothingToDo;
      }
      Update(key, info.(statusList := statusList));
      return Done(disabledCount);
    }

    /** The record goes and all others stay, exactly when the keys that remain are read back. */
    method DeleteKey(index: Option<int>) returns (r: Outcome)
      modifies this
      ensures State() == StoredStep(decode, old(State()), Action.DeleteKey(index))
      ensures Shows(decode, State()) == IdealStep(Shows(decode, old(State())), Action.DeleteKey(index))
         <==> Fits(decode, old(State()), Action.DeleteKey(index))
      ensures r.Done? <==> Below(old(State()), index) && Others(|GetKeys(decode, old(key))|, index.value) != []
    {
      StepAsMeantIff(decode, State(), Action.DeleteKey(index));
      if index.None? {
        return NoIndex;
      }
      var keyIndex := index.value;
      if keyIndex < 0 || keyIndex >= info.size {
        return OutOfRange;
      }
      var remainingKeys, kept := WithoutKey(GetKeys(decode, key), info, keyIndex);
      if |remainingKeys| == 0 {
        return LastKey;
      }
      Update(Join(remainingKeys), kept);
      return Done(1);
    }

    /** The auto-disabled records go, exactly when other keys remain and are read back. */
    method DeleteDisabledKeys() returns (r: Outcome)
      modifies this
      ensures State() == StoredStep(decode, old(State()), Action.DeleteDisabledKeys)
      ensures Shows(decode, State()) == IdealStep(Shows(decode, old(State())), Action.DeleteDisabledKeys)
         <==> Fits(decode, old(State()), Action.DeleteDisabledKeys)
      ensures r.Done? <==> SomeAuto(Shows(decode, old(State())))
    {
      var remainingKeys, kept, deletedCount := WithoutAutoDisabled(GetKeys(decode, key), info);
      PurgeOutcome(decode, State(), remainingKeys, kept);
      if deletedCount == 0 {
        return NothingToDo;
      }
      Update(Join(remainingKeys), kept);
      return Done(deletedCount);
    }
  }

  /** Any run of management actions on any stored channel. */
  method Manage(decode: Decoder, key: seq<Byte>, info: ChannelInfo, actions: seq<Action>)
    returns (key': seq<Byte>, info': ChannelInfo)
    ensures Stored(key', info') == StoredRun(decode, Stored(key, info), actions)
    ensures FitsThroughout(decode, Stored(key, info), actions) ==>
      Shows(decode, Stored(key', info')) == IdealRun(Shows(decode, Stored(key, info)), actions)
  {
    var channel := new Channel(decode, key, info);
    for i := 0 to |actions|
      invariant channel.decode == decode && channel.State() == StoredRun(decode, Stored(key, info), actions[..i])
    {
      assert actions[..i + 1][..i] == actions[..i];
      var outcome;
      match actions[i] {
        case DisableKey(index) => outcome := channel.DisableKey(index);
        case EnableKey(index) => outcome := channel.EnableKey(index);
        case EnableAllKeys => outcome := channel.EnableAllKeys();
        case DisableAllKeys => outcome := channel.DisableAllKeys();
        case DeleteKey(index) => outcome := channel.DeleteKey(index);
        case DeleteDisabledKeys => outcome := channel.DeleteDisabledKeys();
      }
    }
    assert actions[..|actions|] == actions;
    key', info' := channel.key, channel.info;
    RunAsMeantIff(decode, Stored(key, info), actions);
  }
}
