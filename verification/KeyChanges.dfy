/**
Appending keys to a stored multi-key channel (controller/channel.go, model/channel.go), and runs that
mix appends with the management actions: exactly when the channel shows what was meant.
*/
module KeyChanges {
  import opened Prelude
  import opened LineText
  import opened KeyText
  import opened KeyAppend
  import opened MultiKey

  // ----- what an append does and what it is meant to do -----

  function NewKeys(input: seq<Byte>): seq<Key> { Candidates(Split(input)) }

  function Extended(decode: Decoder, stored: seq<Byte>, input: seq<Byte>): seq<Key> {
    Existing(decode, stored) + Added(Existing(decode, stored), NewKeys(input))
  }

  /** The key string that is handed to the save; a channel without keys takes the input as it is. */
  function AppendText(decode: Decoder, stored: seq<Byte>, input: seq<Byte>): seq<Byte> {
    if stored == [] then input else Join(Extended(decode, stored, input))
  }

  function AppendStep(decode: Decoder, s: Stored, input: seq<Byte>): Stored {
    Save(decode, s, AppendText(decode, s.key, input), s.info)
  }

  function FreshRecords(keys: seq<Key>): seq<Record> {
    seq(|keys|, i requires 0 <= i < |keys| => Record(keys[i], ENABLED, None, None))
  }

  /** Every record stays, and each new key follows with a fresh one. */
  function IdealAppend(rs: seq<Record>, input: seq<Byte>): seq<Record> {
    rs + FreshRecords(Added(KeysOf(rs), NewKeys(input)))
  }

  // ----- the keys that are read back -----

  lemma NewKeysClean(input: seq<Byte>)
    ensures Clean(NewKeys(input))
  {
    JoinSplit(input);
    CandidatesClean(Split(input));
  }

  /** The list is read back from the saved channel exactly when it can be reread from what is
      written; an empty string is not written, and then only an array that did not decode hides
      what there was. */
  lemma AppendSavedIff(decode: Decoder, s: Stored, input: seq<Byte>)
    requires s.key != []
    ensures var all := Extended(decode, s.key, input);
            (GetKeys(decode, AppendStep(decode, s, input).key) == all <==>
              if Join(all) == [] then !Undecoded(decode, s.key) else Rereadable(decode, s.key, all))
  {
    var all := Extended(decode, s.key, input);
    NewKeysClean(input);
    AddedAppended(Existing(decode, s.key), NewKeys(input));
    AppendStoredIff(decode, s.key, NewKeys(input), all);
    if Join(all) == [] {
      NothingAdded(decode, s.key, input);
    }
  }

  /** An array that does not decode: its lines are shown, and the append sees no keys. */
  predicate Undecoded(decode: Decoder, stored: seq<Byte>) {
    Bracketed(stored) && decode(stored).None?
  }

  lemma JoinEmptyIff(keys: seq<Key>)
    ensures Join(keys) == [] <==> keys == [] || keys == [[]]
  {
    if |keys| > 1 {
      var init := keys[..|keys| - 1];
      assert |Unlines(init)| >= |init[|init| - 1] + [NEWLINE]|;
    } else if |keys| == 1 {
      assert Unlines(keys[..0]) == [];
      EmptyConcat(keys[0]);
      assert keys == [keys[0]];
    }
  }

  lemma NothingTrimmed(keys: seq<Key>)
    requires keys == [] || keys == [[]]
    ensures Trimmed(keys) == {}
  {
  }

  /** An append that would write an empty string adds nothing. */
  lemma NothingAdded(decode: Decoder, stored: seq<Byte>, input: seq<Byte>)
    requires Join(Extended(decode, stored, input)) == []
    ensures NewKeys(input) == [] && Extended(decode, stored, input) == Existing(decode, stored)
    ensures Existing(decode, stored) == [] || Existing(decode, stored) == [[]]
  {
    var existing, newKeys := Existing(decode, stored), NewKeys(input);
    var all := existing + Added(existing, newKeys);
    JoinEmptyIff(all);
    NothingTrimmed(all);
    NewKeysClean(input);
    AddedAppended(existing, newKeys);
    if newKeys != [] {
      AlreadyThere(existing, newKeys, all, newKeys[0]);
    }
  }

  lemma ShownIff(decode: Decoder, stored: seq<Byte>)
    requires stored != []
    ensures Existing(decode, stored) == GetKeys(decode, stored) <==> !Undecoded(decode, stored)
    ensures Undecoded(decode, stored) ==> Existing(decode, stored) == []
  {
  }

  // ----- the records that are shown -----

  /** No map speaks of this position. */
  predicate Untouched(info: ChannelInfo, i: int) {
    StatusAt(info, i) == ENABLED && i !in info.disabledTime && i !in info.disabledReason
  }

  lemma ExtendedRecordsIff(shown: seq<Key>, more: seq<Key>, got: seq<Key>, info: ChannelInfo)
    ensures Records(got, info) == Records(shown, info) + FreshRecords(more)
       <==> got == shown + more && forall i :: |shown| <= i < |got| ==> Untouched(info, i)
  {
    var all := shown + more;
    var ideal := Records(shown, info) + FreshRecords(more);
    if Records(got, info) == ideal {
      forall i | 0 <= i < |got|
        ensures got[i] == all[i] && (i >= |shown| ==> Untouched(info, i))
      {
        assert Records(got, info)[i] == ideal[i];
      }
      assert got == all;
    }
    if got == all && forall i :: |shown| <= i < |got| ==> Untouched(info, i) {
      forall i | 0 <= i < |got|
        ensures Records(got, info)[i] == ideal[i]
      {
        assert i >= |shown| ==> Untouched(info, i);
      }
      assert Records(got, info) == ideal;
    }
  }

  /** The keys meant are those read back. What can be told before the append: for a channel without
      keys, the input lists distinct trimmed keys already; otherwise, unless nothing is written, the
      extended list can be reread, and an array that did not decode had all its lines at the
      front of the input. */
  ghost predicate KeysFit(decode: Decoder, stored: seq<Byte>, input: seq<Byte>) {
    var all := Extended(decode, stored, input);
    var shown := GetKeys(decode, stored);
    if stored == [] then Listed(decode, input)
    else if Join(all) == [] then true
    else if !Undecoded(decode, stored) then Rereadable(decode, stored, all)
    else if Bracketed(Join(all)) && decode(Join(all)).Some?
      then decode(Join(all)).value == shown + Added(shown, NewKeys(input))
    else shown <= all
  }

  ghost predicate Distinct(keys: seq<Key>) {
    forall i, j :: 0 <= i < j < |keys| ==> keys[i] != keys[j]
  }

  ghost predicate Listed(decode: Decoder, input: seq<Byte>) {
    var lines := Split(Trim(input, IsNewline));
    if input == [] then true
    else if Bracketed(input) && decode(input).Some? then decode(input).value == Added([], NewKeys(input))
    else Clean(lines) && Distinct(lines)
  }

  /** And no map speaks of a position that a new key takes. */
  ghost predicate AppendFits(decode: Decoder, s: Stored, input: seq<Byte>) {
    var shown := GetKeys(decode, s.key);
    && KeysFit(decode, s.key, input)
    && forall i :: |shown| <= i < |shown| + |Added(shown, NewKeys(input))| ==> Untouched(s.info, i)
  }

  // ----- lists without keys before -----

  lemma {:induction false} AddedAll(newKeys: seq<Key>)
    requires Distinct(newKeys)
    ensures Added([], newKeys) == newKeys
  {
    if newKeys != [] {
      var k := |newKeys| - 1;
      AddedAll(newKeys[..k]);
      assert newKeys == newKeys[..k] + [newKeys[k]];
    }
  }

  lemma AddedDistinct(newKeys: seq<Key>)
    requires Clean(newKeys)
    ensures Clean(Added([], newKeys)) && Distinct(Added([], newKeys))
  {
    AddedGrown([], newKeys);
    forall i | 0 <= i < |Added([], newKeys)|
      ensures var key := Added([], newKeys)[i]; key != [] && NEWLINE !in key && TrimSpace(key) == key
    {
      CleanMember(newKeys, Added([], newKeys)[i]);
      CleanTrimmed(newKeys, Added([], newKeys)[i]);
    }
  }

  lemma OneBlank()
    ensures Candidates([[]]) == []
  {
    var lines: seq<Key> := [[]];
    assert lines[..0] == [] && TrimSpace(lines[0]) == [];
  }

  lemma {:induction false} CandidatesAfterBlank(lines: seq<Key>)
    ensures Candidates([[]] + lines) == Candidates(lines)
  {
    if lines == [] {
      OneBlank();
      assert [[]] + lines == [[]];
    } else {
      var k := |lines| - 1;
      CandidatesAfterBlank(lines[..k]);
      assert ([[]] + lines)[..k + 1] == [[]] + lines[..k];
    }
  }

  lemma CandidatesBeforeBlank(lines: seq<Key>)
    ensures Candidates(lines + [[]]) == Candidates(lines)
  {
    assert (lines + [[]])[..|lines|] == lines;
    EmptyConcat(Candidates(lines));
  }

  lemma SplitLeading(s: seq<Byte>)
    requires s != [] && s[0] == NEWLINE
    ensures Split(s) == [[]] + Split(s[1..])
  {
    CutAt(s, 0);
    FirstLine(s[..0], s[1..]);
    Assoc([s[..0]], Lines(s[1..]), [Rest(s[1..])]);
  }

  lemma {:induction false} CandidatesTrimLeft(s: seq<Byte>)
    ensures Candidates(Split(TrimLeft(s, IsNewline))) == Candidates(Split(s))
  {
    if s != [] && s[0] == NEWLINE {
      CandidatesTrimLeft(s[1..]);
      SplitLeading(s);
      CandidatesAfterBlank(Split(s[1..]));
    }
  }

  lemma {:induction false} CandidatesTrimRight(s: seq<Byte>)
    ensures Candidates(Split(TrimRight(s, IsNewline))) == Candidates(Split(s))
  {
    if s != [] && s[|s| - 1] == NEWLINE {
      var init := s[..|s| - 1];
      CandidatesTrimRight(init);
      assert Split(s) == Split(init) + [[]];
      CandidatesBeforeBlank(Split(init));
    }
  }

  lemma LinesListedIff(lines: seq<Key>)
    requires Clean(Candidates(lines))
    ensures lines == Added([], Candidates(lines)) <==> Clean(lines) && Distinct(lines)
  {
    AddedDistinct(Candidates(lines));
    if Clean(lines) && Distinct(lines) {
      CandidatesOfClean(lines);
      AddedAll(lines);
    }
  }

  lemma CandidatesTrim(input: seq<Byte>)
    ensures Candidates(Split(Trim(input, IsNewline))) == NewKeys(input)
  {
    CandidatesTrimLeft(input);
    CandidatesTrimRight(TrimLeft(input, IsNewline));
  }

  /** Without keys before, the input is the list meant exactly when its lines are clean and distinct. */
  lemma ListedIff(decode: Decoder, input: seq<Byte>)
    ensures GetKeys(decode, input) == Added([], NewKeys(input)) <==> Listed(decode, input)
  {
    if input == [] {
      NoInput();
    } else {
      CandidatesTrim(input);
      NewKeysClean(input);
      LinesListedIff(Split(Trim(input, IsNewline)));
    }
  }

  lemma NoInput()
    ensures NewKeys([]) == [] && Added([], []) == []
  {
    OneBlank();
    assert Split([]) == [[]];
  }

  // ----- when an append does what is meant -----

  lemma KeysFitIff(decode: Decoder, s: Stored, input: seq<Byte>)
    ensures var shown := GetKeys(decode, s.key);
            (GetKeys(decode, AppendStep(decode, s, input).key) == shown + Added(shown, NewKeys(input)) <==>
              KeysFit(decode, s.key, input))
  {
    if s.key == [] {
      ListedIff(decode, input);
      EmptyConcat(Added([], NewKeys(input)));
    } else if Join(Extended(decode, s.key, input)) == [] {
      NothingAdded(decode, s.key, input);
    } else {
      ShownIff(decode, s.key);
      AppendSavedIff(decode, s, input);
      if Undecoded(decode, s.key) {
        UndecodedIff(decode, s, input);
      }
    }
  }

  lemma UndecodedIff(decode: Decoder, s: Stored, input: seq<Byte>)
    requires s.key != [] && Undecoded(decode, s.key) && Join(Extended(decode, s.key, input)) != []
    ensures var shown := GetKeys(decode, s.key);
            (GetKeys(decode, AppendStep(decode, s, input).key) == shown + Added(shown, NewKeys(input)) <==>
              KeysFit(decode, s.key, input))
  {
    var shown, newKeys := GetKeys(decode, s.key), NewKeys(input);
    NewKeysClean(input);
    EmptyConcat(Added([], newKeys));
    AddedMeetIff([], shown, newKeys);
    if !(Bracketed(Join(Added([], newKeys))) && decode(Join(Added([], newKeys))).Some?) {
      AddedDistinct(newKeys);
      CleanReadBack(decode, Added([], newKeys));
    }
  }

  lemma CleanReadBack(decode: Decoder, keys: seq<Key>)
    requires Clean(keys) && Join(keys) != [] && !(Bracketed(Join(keys)) && decode(Join(keys)).Some?)
    ensures GetKeys(decode, Join(keys)) == keys
  {
    StoredKeysIff(decode, keys);
  }

  /** An append to any stored channel shows what was meant exactly when it fits. */
  lemma AppendMeantIff(decode: Decoder, s: Stored, input: seq<Byte>)
    ensures Shows(decode, AppendStep(decode, s, input)) == IdealAppend(Shows(decode, s), input)
       <==> AppendFits(decode, s, input)
  {
    var shown, t := GetKeys(decode, s.key), AppendStep(decode, s, input);
    var more := Added(shown, NewKeys(input));
    KeysOfRecords(shown, s.info);
    SaveShows(decode, s, AppendText(decode, s.key, input), s.info);
    ExtendedRecordsIff(shown, more, GetKeys(decode, t.key), s.info);
    KeysFitIff(decode, s, input);
  }

  /** On a channel whose maps stay inside its keys only the keys decide, and it stays so. */
  lemma InsideAppend(decode: Decoder, s: Stored, input: seq<Byte>)
    requires Inside(decode, s)
    ensures AppendFits(decode, s, input) <==> KeysFit(decode, s.key, input)
    ensures AppendFits(decode, s, input) ==> Inside(decode, AppendStep(decode, s, input))
  {
    KeysFitIff(decode, s, input);
  }

  /** In particular every append to visible newline-separated keys fits. */
  lemma VisibleAppendFits(decode: Decoder, s: Stored, input: seq<Byte>)
    requires Inside(decode, s) && Visible(s.key)
    ensures AppendFits(decode, s, input)
  {
    var all := Extended(decode, s.key, input);
    NewKeysClean(input);
    AddedAppended(Existing(decode, s.key), NewKeys(input));
    AppendStored(decode, s.key, NewKeys(input), all);
    AppendStoredIff(decode, s.key, NewKeys(input), all);
    InsideAppend(decode, s, input);
  }

  // ----- runs of appends and actions -----

  datatype Change = Act(action: Action) | Append(input: seq<Byte>)

  function ChangeStep(decode: Decoder, s: Stored, c: Change): Stored {
    match c
    case Act(action) => StoredStep(decode, s, action)
    case Append(input) => AppendStep(decode, s, input)
  }

  function IdealChange(rs: seq<Record>, c: Change): seq<Record> {
    match c
    case Act(action) => IdealStep(rs, action)
    case Append(input) => IdealAppend(rs, input)
  }

  ghost predicate ChangeFits(decode: Decoder, s: Stored, c: Change) {
    match c
    case Act(action) => Fits(decode, s, action)
    case Append(input) => AppendFits(decode, s, input)
  }

  function ChangeRun(decode: Decoder, s: Stored, changes: seq<Change>): Stored {
    if changes == [] then s
    else ChangeStep(decode, ChangeRun(decode, s, changes[..|changes| - 1]), changes[|changes| - 1])
  }

  function IdealChanges(rs: seq<Record>, changes: seq<Change>): seq<Record> {
    if changes == [] then rs else IdealChange(IdealChanges(rs, changes[..|changes| - 1]), changes[|changes| - 1])
  }

  /** After every change of a run the stored channel shows the intended records. */
  ghost predicate MeantThroughout(decode: Decoder, s: Stored, changes: seq<Change>) {
    && Shows(decode, ChangeRun(decode, s, changes)) == IdealChanges(Shows(decode, s), changes)
    && (changes != [] ==> MeantThroughout(decode, s, changes[..|changes| - 1]))
  }

  ghost predicate FitThroughout(decode: Decoder, s: Stored, changes: seq<Change>) {
    changes == [] ||
    var k := |changes| - 1;
    FitThroughout(decode, s, changes[..k]) && ChangeFits(decode, ChangeRun(decode, s, changes[..k]), changes[k])
  }

  /** A run of appends and actions on any stored channel shows what was meant all along exactly when
      each change fits. */
  lemma {:induction false} ChangesAsMeantIff(decode: Decoder, s: Stored, changes: seq<Change>)
    ensures MeantThroughout(decode, s, changes) <==> FitThroughout(decode, s, changes)
  {
    if changes != [] {
      var k := |changes| - 1;
      var before := ChangeRun(decode, s, changes[..k]);
      ChangesAsMeantIff(decode, s, changes[..k]);
      match changes[k] {
        case Act(action) => StepAsMeantIff(decode, before, action);
        case Append(input) => AppendMeantIff(decode, before, input);
      }
    }
  }

  // ----- new keys that are not fresh -----

  const LETTER: Key := [97]

  lemma JoinOne(key: Key)
    ensures Join([key]) == key
  {
    assert [key][..0] == [];
    EmptyConcat(key);
  }

  lemma OneLetter(decode: Decoder)
    ensures NewKeys(LETTER) == [LETTER] && GetKeys(decode, LETTER) == [LETTER]
  {
    Unbroken(LETTER);
    EmptyConcat([LETTER]);
    TrimNothing(LETTER, IsNewline);
    TrimNothing(LETTER, IsSpace);
    CandidatesOfClean([LETTER]);
  }

  lemma OneAdded(key: Key)
    ensures Added([], [key]) == [key]
  {
    AddedAll([key]);
  }

  /** Disabling the keys of an empty array and then appending one: the new key shows up disabled. */
  lemma AppendedDisabled(decode: Decoder)
    requires decode([91, 93]) == Some([])
    ensures var s := Stored([91, 93], ChannelInfo(1, map[], map[], map[]));
            var t := ChangeRun(decode, s, [Act(DisableAllKeys), Append(LETTER)]);
            && Shows(decode, s) == []
            && Shows(decode, t) == [Record(LETTER, MANUALLY_DISABLED, None, None)]
  {
    var s := Stored([91, 93], ChannelInfo(1, map[], map[], map[]));
    EmptyArrayCounted(decode);
    var mid := StoredStep(decode, s, DisableAllKeys);
    EmptyArrayAllDisabled(decode);
    var changes := [Act(DisableAllKeys), Append(LETTER)];
    assert changes[..1] == [Act(DisableAllKeys)] && changes[..1][..0] == [];
    assert ChangeRun(decode, s, changes[..1]) == mid;
    EmptyArrayAppend(decode, mid);
  }

  lemma EmptyArrayAllDisabled(decode: Decoder)
    requires decode([91, 93]) == Some([])
    ensures StoredStep(decode, Stored([91, 93], ChannelInfo(1, map[], map[], map[])), DisableAllKeys)
         == Stored([91, 93], ChannelInfo(1, map[0 := MANUALLY_DISABLED], map[], map[]))
  {
    EmptyArrayCounted(decode);
    var info := ChannelInfo(1, map[], map[], map[]);
    assert StatusAt(info, 0) == ENABLED;
    assert AllDisabled(info) == map[0 := MANUALLY_DISABLED];
  }

  lemma FirstKeyText(decode: Decoder, stored: seq<Byte>, key: Key)
    requires stored != [] && Existing(decode, stored) == [] && NewKeys(key) == [key]
    ensures AppendText(decode, stored, key) == key
  {
    OneAdded(key);
    EmptyConcat([key]);
    JoinOne(key);
  }

  lemma FirstKeyShown(decode: Decoder, s: Stored, key: Key)
    requires AppendText(decode, s.key, key) == key && key != [] && GetKeys(decode, key) == [key]
    ensures Shows(decode, AppendStep(decode, s, key)) == [RecordAt(key, s.info, 0)]
  {
    SaveShows(decode, s, key, s.info);
    assert Records([key], s.info) == [RecordAt(key, s.info, 0)];
  }

  lemma EmptyArrayExisting(decode: Decoder)
    requires decode([91, 93]) == Some([])
    ensures Existing(decode, [91, 93]) == []
  {
  }

  lemma EmptyArrayAppend(decode: Decoder, s: Stored)
    requires decode([91, 93]) == Some([])
    requires s == Stored([91, 93], ChannelInfo(1, map[0 := MANUALLY_DISABLED], map[], map[]))
    ensures Shows(decode, AppendStep(decode, s, LETTER)) == [Record(LETTER, MANUALLY_DISABLED, None, None)]
  {
    OneLetter(decode);
    EmptyArrayExisting(decode);
    FirstKeyText(decode, s.key, LETTER);
    FirstKeyShown(decode, s, LETTER);
  }

  // ----- the channel object -----

  /** The append on a channel object. */
  method AppendKeys(channel: Channel, input: seq<Byte>)
    modifies channel
    ensures channel.State() == AppendStep(channel.decode, old(channel.State()), input)
    ensures Shows(channel.decode, channel.State()) == IdealAppend(Shows(channel.decode, old(channel.State())), input)
       <==> AppendFits(channel.decode, old(channel.State()), input)
  {
    AppendMeantIff(channel.decode, channel.State(), input);
    var key := input;
    if channel.key != [] {
      var newKeys := ReadCandidates(input);
      NewKeysClean(input);
      CandidatesOfClean(newKeys);
      var allKeys := Dedupe(Existing(channel.decode, channel.key), newKeys);
      key := Join(allKeys);
    }
    channel.Update(key, channel.info);
  }

  /** Any run of appends and management actions on any stored channel. */
  method Edit(decode: Decoder, key: seq<Byte>, info: ChannelInfo, changes: seq<Change>)
    returns (key': seq<Byte>, info': ChannelInfo)
    ensures Stored(key', info') == ChangeRun(decode, Stored(key, info), changes)
    ensures FitThroughout(decode, Stored(key, info), changes) ==>
      Shows(decode, Stored(key', info')) == IdealChanges(Shows(decode, Stored(key, info)), changes)
  {
    key', info' := key, info;
    for i := 0 to |changes|
      invariant Stored(key', info') == ChangeRun(decode, Stored(key, info), changes[..i])
    {
      assert changes[..i + 1][..i] == changes[..i];
      match changes[i] {
        case Act(action) =>
          assert [action][..0] == [];
          key', info' := Manage(decode, key', info', [action]);
        case Append(input) =>
          var channel := new Channel(decode, key', info');
          AppendKeys(channel, input);
          key', info' := channel.key, channel.info;
      }
    }
    assert changes[..|changes|] == changes;
    ChangesAsMeantIff(decode, Stored(key, info), changes);
  }
}
