// The request-log sanitizer (common/request_log.go): a walk over a JSON value
// that masks sensitive fields, reads strings that hold JSON again as JSON, and
// stops at a depth bound and at a node budget shared by the whole walk.

module LogSanitizer {

  import opened Prelude
  import opened LogText
  import opened LogCredentials

  /** A JSON value; Atom is a number, boolean or null, Count an integer the sanitizer writes. */
  datatype Json =
    | Object(fields: map<Text, Json>)
    | Array(items: seq<Json>)
    | Str(text: Text)
    | Atom(raw: Text)
    | Count(n: nat)

  /** The library calls and classifiers the walk depends on. */
  datatype Config = Config(
    rules: Rules,
    order: set<Text> -> seq<Text>,
    media: (Text, Text) -> bool,
    structured: (Text, Text) -> bool,
    decode: Text -> Option<Json>,
    render: Json -> Option<Text>,
    privateKey: Text -> bool,
    scrub: Text -> Text)

  const MAX_DEPTH: nat := 32
  const MAX_NODES: nat := 4096
  const MAX_ITEMS: nat := 256
  const MAX_KEYS: nat := 256
  const EMBEDDED_LIMIT: nat := 16384
  const STRING_LIMIT: nat := 4096

  const NESTED := Ascii("[nested content omitted: logging budget exceeded]")
  const UNRENDERED := Ascii("[embedded JSON rendering failed]")
  const BINARY := Ascii("[binary content omitted, original_length=")
  const OVERSIZE := Ascii("[embedded JSON omitted: original_length=")
  const EXCEEDS := Ascii(" exceeds safe logging limit=")
  const INVALID := Ascii("[invalid embedded JSON omitted, original_length=")
  const PRIVATE := Ascii("[private key content omitted, original_length=")
  const OMITTED_FIELDS := Ascii("_request_log_omitted_fields")
  const OMITTED_ITEMS := Ascii("_request_log_omitted_items")
  const DOT: Byte := 46

  /** Sorting lists every key of an object once. */
  ghost predicate Sorts(order: set<Text> -> seq<Text>) {
    forall keys {:trigger order(keys)} :: Lists(order(keys), keys)
  }

  ghost predicate Lists(list: seq<Text>, keys: set<Text>) {
    && |list| == |keys|
    && (forall key :: key in list <==> key in keys)
    && (forall i, j :: 0 <= i < j < |list| ==> list[i] != list[j])
  }

  function Min(a: nat, b: nat): nat {
    if a < b then a else b
  }

  function PathTo(path: Text, key: Text): Text {
    if path == [] then key else path + [DOT] + key
  }

  // ---- Strings ---------------------------------------------------------------------

  function Noted(note: Text, length: nat): (r: Text)
    requires Printable(note)
    ensures Printable(r)
  {
    note + Decimal(length) + CLOSE
  }

  function OversizeNote(length: nat): (r: Text)
    ensures Printable(r)
  {
    OVERSIZE + Decimal(length) + EXCEEDS + Decimal(EMBEDDED_LIMIT) + CLOSE
  }

  ghost function Plain(cfg: Config, text: Text): Text {
    if cfg.privateKey(text) then Noted(PRIVATE, |text|)
    else
      var clean := cfg.scrub(text);
      Bounded(clean, STRING_LIMIT, LengthMark(|clean|))
  }

  ghost function Rendered(cfg: Config, value: Json): Text {
    match cfg.render(value)
    case None => UNRENDERED
    case Some(text) => Bounded(text, STRING_LIMIT, LengthMark(|text|))
  }

  /** What stands for a field under a sensitive key. */
  function MaskedField(cfg: Config, key: Text, value: Json): Json {
    Str(if value.Str? then MaskedFor(cfg.rules, key, value.text) else MASKED)
  }

  // ---- The walk ----------------------------------------------------------------------

  /** A result and the node budget left after it. */
  datatype Out<T> = Out(value: T, left: int)

  /** An object under way: the fields written and how many keys they stand for. */
  datatype Partial = Partial(written: map<Text, Json>, done: nat, left: int)

  function ValueRank(depth: nat): nat {
    if depth >= MAX_DEPTH then 0 else 2 * (MAX_DEPTH - depth) + 1
  }

  function TextRank(depth: nat): nat {
    if depth >= MAX_DEPTH then 1 else 2 * (MAX_DEPTH - depth)
  }

  /** The budget only goes down, and stops at zero. */
  ghost predicate Spends(before: int, after: int) {
    after <= before && (before >= 0 ==> after >= 0) && (before <= 0 ==> after == before)
  }

  ghost function Value(cfg: Config, v: Json, path: Text, depth: nat, left: int): (r: Out<Json>)
    requires Sorts(cfg.order)
    ensures Spends(left, r.left)
    ensures depth < MAX_DEPTH && left > 0 ==> r.left < left
    decreases ValueRank(depth), 1, 0
  {
    if depth >= MAX_DEPTH || left <= 0 then Out(Str(NESTED), left)
    else
      match v
      case Object(fields) =>
        var r := Fields(cfg, fields, path, depth, left - 1, |fields|);
        Out(Object(r.written), r.left)
      case Array(items) =>
        var r := Items(cfg, items, path, depth, left - 1, Min(|items|, MAX_ITEMS));
        Out(Array(r.value + Omission(|items| - |r.value|)), r.left)
      case Str(text) =>
        var r := FieldText(cfg, text, path, depth, left - 1);
        Out(Str(r.value), r.left)
      case _ => Out(v, left - 1)
  }

  function Omission(count: nat): seq<Json> {
    if count == 0 then [] else [Object(map[OMITTED_ITEMS := Count(count)])]
  }

  /** After `n` keys in sorted order. */
  ghost function Fields(cfg: Config, fields: map<Text, Json>, path: Text, depth: nat, left: int, n: nat): (r: Partial)
    requires Sorts(cfg.order) && depth < MAX_DEPTH && n <= |fields|
    ensures Spends(left, r.left) && r.done <= Min(n, MAX_KEYS)
    decreases ValueRank(depth), 0, n + 2
  {
    if n == 0 then Partial(map[], 0, left)
    else NextField(cfg, fields, path, depth, n - 1, Fields(cfg, fields, path, depth, left, n - 1))
  }

  /** The key at an index, unless an earlier one already ended the loop. */
  ghost function NextField(cfg: Config, fields: map<Text, Json>, path: Text, depth: nat, i: nat, r: Partial): (next: Partial)
    requires Sorts(cfg.order) && depth < MAX_DEPTH && i < |fields| && r.done <= Min(i, MAX_KEYS)
    ensures Spends(r.left, next.left) && next.done <= Min(i + 1, MAX_KEYS)
    decreases ValueRank(depth), 0, 1
  {
    if r.done < i then r
    else if i >= MAX_KEYS || r.left <= 0 then
      Partial(r.written[OMITTED_FIELDS := Count(|fields| - i)], i, r.left)
    else
      var key := KeyAt(cfg, fields, i);
      var item := Field(cfg, key, fields[key], path, depth, r.left);
      Partial(r.written[key := item.value], i + 1, item.left)
  }

  ghost function KeyAt(cfg: Config, fields: map<Text, Json>, i: nat): (key: Text)
    requires Sorts(cfg.order) && i < |fields|
    ensures key in fields
  {
    assert Lists(cfg.order(fields.Keys), fields.Keys) && |fields.Keys| == |fields|;
    cfg.order(fields.Keys)[i]
  }

  ghost function Field(cfg: Config, key: Text, value: Json, path: Text, depth: nat, left: int): (r: Out<Json>)
    requires Sorts(cfg.order) && depth < MAX_DEPTH
    ensures Spends(left, r.left)
    decreases ValueRank(depth), 0, 0
  {
    if cfg.rules.sensitive(key) then Out(MaskedField(cfg, key, value), left)
    else Value(cfg, value, PathTo(path, key), depth + 1, left)
  }

  /** After at most `n` items; fewer when the budget ran out. */
  ghost function Items(cfg: Config, items: seq<Json>, path: Text, depth: nat, left: int, n: nat): (r: Out<seq<Json>>)
    requires Sorts(cfg.order) && depth < MAX_DEPTH && n <= |items|
    ensures Spends(left, r.left) && |r.value| <= n
    decreases ValueRank(depth), 0, n
  {
    if n == 0 then Out([], left)
    else
      var r := Items(cfg, items, path, depth, left, n - 1);
      if r.left <= 0 then r
      else
        var item := Value(cfg, items[n - 1], path, depth + 1, r.left);
        Out(r.value + [item.value], item.left)
  }

  ghost function FieldText(cfg: Config, text: Text, path: Text, depth: nat, left: int): (r: Out<Text>)
    requires Sorts(cfg.order)
    ensures Spends(left, r.left)
    decreases TextRank(depth), 0, 0
  {
    if cfg.media(path, text) then Out(Noted(BINARY, |text|), left)
    else if !cfg.structured(path, text) then Out(Plain(cfg, text), left)
    else if |text| > EMBEDDED_LIMIT then Out(OversizeNote(|text|), left)
    else
      match cfg.decode(text)
      case None => Out(Noted(INVALID, |text|), left)
      case Some(value) =>
        var r := Value(cfg, value, path, depth + 1, left);
        Out(Rendered(cfg, r.value), r.left)
  }

  // ---- What the log cannot tell apart --------------------------------------------------

  /** Two fields whose sensitive key hides everything about them that differs. */
  ghost predicate Hidden(cfg: Config, key: Text, a: Json, b: Json) {
    a == b || cfg.rules.neverFingerprinted(key) || (!a.Str? && !b.Str?)
  }

  /** Two strings shown alike: only their length shows, they differ in what is scrubbed, or the JSON
      in them is alike. */
  ghost predicate AlikeText(cfg: Config, a: Text, b: Text, path: Text, depth: nat)
    requires Sorts(cfg.order)
    decreases TextRank(depth), 1
  {
    || a == b
    || (cfg.media(path, a) && cfg.media(path, b) && |a| == |b|)
    || (!cfg.media(path, a) && !cfg.media(path, b)
        && if cfg.structured(path, a) then cfg.structured(path, b) && AlikeEmbedded(cfg, a, b, path, depth)
           else !cfg.structured(path, b) && AlikePlain(cfg, a, b))
  }

  /** Two ordinary strings shown alike: private keys of one length, or the same once scrubbed. */
  predicate AlikePlain(cfg: Config, a: Text, b: Text) {
    if cfg.privateKey(a) || cfg.privateKey(b) then cfg.privateKey(a) && cfg.privateKey(b) && |a| == |b|
    else cfg.scrub(a) == cfg.scrub(b)
  }

  ghost predicate AlikeEmbedded(cfg: Config, a: Text, b: Text, path: Text, depth: nat)
    requires Sorts(cfg.order)
    decreases TextRank(depth), 0
  {
    if |a| > EMBEDDED_LIMIT || cfg.decode(a).None? then
      && |a| == |b|
      && (|a| <= EMBEDDED_LIMIT ==> cfg.decode(b).None?)
    else
      && |b| <= EMBEDDED_LIMIT && cfg.decode(b).Some?
      && Alike(cfg, cfg.decode(a).value, cfg.decode(b).value, path, depth + 1)
  }

  /** Two values that differ only where nothing of the difference is shown: below the
      depth bound, past the item and key limits, under masked keys, in hidden strings. */
  ghost predicate Alike(cfg: Config, a: Json, b: Json, path: Text, depth: nat)
    requires Sorts(cfg.order)
    decreases ValueRank(depth), 1
  {
    || depth >= MAX_DEPTH
    || a == b
    || (a.Str? && b.Str? && AlikeText(cfg, a.text, b.text, path, depth))
    || (a.Array? && b.Array? && AlikeItems(cfg, a.items, b.items, path, depth))
    || (a.Object? && b.Object? && AlikeFields(cfg, a.fields, b.fields, path, depth))
  }

  ghost predicate AlikeItems(cfg: Config, a: seq<Json>, b: seq<Json>, path: Text, depth: nat)
    requires Sorts(cfg.order) && depth < MAX_DEPTH
    decreases ValueRank(depth), 0
  {
    && |a| == |b|
    && forall i :: 0 <= i < Min(|a|, MAX_ITEMS) ==> Alike(cfg, a[i], b[i], path, depth + 1)
  }

  ghost predicate AlikeFields(cfg: Config, a: map<Text, Json>, b: map<Text, Json>, path: Text, depth: nat)
    requires Sorts(cfg.order) && depth < MAX_DEPTH
    decreases ValueRank(depth), 0, 1
  {
    && a.Keys == b.Keys
    && forall i :: 0 <= i < Min(|a|, MAX_KEYS) ==> AlikeAt(cfg, a, b, KeyAt(cfg, a, i), path, depth)
  }

  ghost predicate AlikeAt(cfg: Config, a: map<Text, Json>, b: map<Text, Json>, key: Text, path: Text, depth: nat)
    requires Sorts(cfg.order) && depth < MAX_DEPTH && key in a && key in b
    decreases ValueRank(depth), 0, 0
  {
    if cfg.rules.sensitive(key) then Hidden(cfg, key, a[key], b[key])
    else Alike(cfg, a[key], b[key], PathTo(path, key), depth + 1)
  }

  /** Values alike give the same output and leave the same budget. */
  lemma {:induction false} NonInterference(cfg: Config, a: Json, b: Json, path: Text, depth: nat, left: int)
    requires Sorts(cfg.order) && Alike(cfg, a, b, path, depth)
    ensures Value(cfg, a, path, depth, left) == Value(cfg, b, path, depth, left)
    decreases ValueRank(depth), 1, 0
  {
    if depth < MAX_DEPTH && left > 0 && a != b {
      if a.Object? {
        SameSize(a.fields, b.fields);
        SameFields(cfg, a.fields, b.fields, path, depth, left - 1, |a.fields|);
      } else if a.Array? {
        SameItems(cfg, a.items, b.items, path, depth, left - 1, Min(|a.items|, MAX_ITEMS));
      } else {
        SameText(cfg, a.text, b.text, path, depth, left - 1);
      }
    }
  }

  lemma SameSize(a: map<Text, Json>, b: map<Text, Json>)
    requires a.Keys == b.Keys
    ensures |a| == |b|
  {
    assert |a| == |a.Keys| && |b| == |b.Keys|;
  }

  lemma {:induction false} SameFields(cfg: Config, a: map<Text, Json>, b: map<Text, Json>, path: Text, depth: nat, left: int, n: nat)
    requires Sorts(cfg.order) && depth < MAX_DEPTH && n <= |a| == |b| && AlikeFields(cfg, a, b, path, depth)
    ensures Fields(cfg, a, path, depth, left, n) == Fields(cfg, b, path, depth, left, n)
    decreases ValueRank(depth), 0, n + 2
  {
    if n > 0 {
      SameFields(cfg, a, b, path, depth, left, n - 1);
      SameNext(cfg, a, b, path, depth, n - 1, Fields(cfg, a, path, depth, left, n - 1));
    }
  }

  lemma {:induction false} SameNext(cfg: Config, a: map<Text, Json>, b: map<Text, Json>, path: Text, depth: nat, i: nat, r: Partial)
    requires Sorts(cfg.order) && depth < MAX_DEPTH && i < |a| == |b| && AlikeFields(cfg, a, b, path, depth)
    requires r.done <= Min(i, MAX_KEYS)
    ensures NextField(cfg, a, path, depth, i, r) == NextField(cfg, b, path, depth, i, r)
    decreases ValueRank(depth), 0, 1
  {
    var key := KeyAt(cfg, a, i);
    assert KeyAt(cfg, b, i) == key;
    if r.done == i < MAX_KEYS && r.left > 0 {
      assert AlikeAt(cfg, a, b, key, path, depth);
      SameField(cfg, a, b, key, path, depth, r.left);
    }
  }

  lemma {:induction false} SameField(cfg: Config, a: map<Text, Json>, b: map<Text, Json>, key: Text, path: Text, depth: nat, left: int)
    requires Sorts(cfg.order) && depth < MAX_DEPTH && key in a && key in b && AlikeAt(cfg, a, b, key, path, depth)
    ensures Field(cfg, key, a[key], path, depth, left) == Field(cfg, key, b[key], path, depth, left)
    decreases ValueRank(depth), 0, 0
  {
    if !cfg.rules.sensitive(key) {
      NonInterference(cfg, a[key], b[key], PathTo(path, key), depth + 1, left);
    }
  }

  lemma {:induction false} SameItems(cfg: Config, a: seq<Json>, b: seq<Json>, path: Text, depth: nat, left: int, n: nat)
    requires Sorts(cfg.order) && depth < MAX_DEPTH && AlikeItems(cfg, a, b, path, depth) && n <= Min(|a|, MAX_ITEMS)
    ensures Items(cfg, a, path, depth, left, n) == Items(cfg, b, path, depth, left, n)
    decreases ValueRank(depth), 0, n
  {
    if n > 0 {
      SameItems(cfg, a, b, path, depth, left, n - 1);
      var r := Items(cfg, a, path, depth, left, n - 1);
      NonInterference(cfg, a[n - 1], b[n - 1], path, depth + 1, r.left);
    }
  }

  lemma {:induction false} SameText(cfg: Config, a: Text, b: Text, path: Text, depth: nat, left: int)
    requires Sorts(cfg.order) && AlikeText(cfg, a, b, path, depth)
    ensures FieldText(cfg, a, path, depth, left) == FieldText(cfg, b, path, depth, left)
    decreases TextRank(depth), 0, 0
  {
    if a != b && !cfg.media(path, a) && cfg.structured(path, a) && |a| <= EMBEDDED_LIMIT && cfg.decode(a).Some? {
      NonInterference(cfg, cfg.decode(a).value, cfg.decode(b).value, path, depth + 1, left);
    }
  }

  /** A field under a sensitive, never-fingerprinted key can hold anything. */
  lemma SecretReplaced(cfg: Config, fields: map<Text, Json>, key: Text, value: Json, path: Text, depth: nat, left: int)
    requires Sorts(cfg.order) && key in fields
    requires cfg.rules.sensitive(key) && cfg.rules.neverFingerprinted(key)
    ensures Value(cfg, Object(fields), path, depth, left) == Value(cfg, Object(fields[key := value]), path, depth, left)
  {
    var other := fields[key := value];
    assert other.Keys == fields.Keys;
    if depth < MAX_DEPTH {
      forall i | 0 <= i < Min(|fields|, MAX_KEYS)
        ensures AlikeAt(cfg, fields, other, KeyAt(cfg, fields, i), path, depth)
      {
      }
      assert AlikeFields(cfg, fields, other, path, depth);
    }
    NonInterference(cfg, Object(fields), Object(other), path, depth, left);
  }

  // ---- Truncation is accounted for ----------------------------------------------------------

  /** An output is what becomes of a value under some budget. */
  ghost predicate Sanitized(cfg: Config, v: Json, path: Text, depth: nat, out: Json)
    requires Sorts(cfg.order)
  {
    exists left :: out == Value(cfg, v, path, depth, left).value
  }

  lemma {:induction false} ItemsKept(cfg: Config, items: seq<Json>, path: Text, depth: nat, left: int, n: nat)
    requires Sorts(cfg.order) && depth < MAX_DEPTH && n <= |items|
    ensures var r := Items(cfg, items, path, depth, left, n);
            && (|r.value| < n ==> r.left <= 0)
            && forall i :: 0 <= i < |r.value| ==> Sanitized(cfg, items[i], path, depth + 1, r.value[i])
    decreases n
  {
    if n > 0 {
      ItemsKept(cfg, items, path, depth, left, n - 1);
    }
  }

  /** An array keeps its first items in order, and a cut array says how many are missing. */
  lemma ArrayAccounted(cfg: Config, items: seq<Json>, path: Text, depth: nat, left: int) returns (kept: nat)
    requires Sorts(cfg.order) && depth < MAX_DEPTH && left > 0
    ensures kept <= |items| && kept <= 256
    ensures var r := Value(cfg, Array(items), path, depth, left);
            && r.value.Array? && |r.value.items| == kept + |Omission(|items| - kept)|
            && r.value.items[kept..] == Omission(|items| - kept)
            && (kept < |items| ==>
                  r.value.items[kept..] == [Object(map[Ascii("_request_log_omitted_items") := Count(|items| - kept)])])
            && (kept < |items| ==> kept == 256 || r.left == 0)
            && forall i :: 0 <= i < kept ==> Sanitized(cfg, items[i], path, depth + 1, r.value.items[i])
  {
    ItemsKept(cfg, items, path, depth, left - 1, Min(|items|, MAX_ITEMS));
    kept := |Items(cfg, items, path, depth, left - 1, Min(|items|, MAX_ITEMS)).value|;
  }

  /** The first `n` keys of an object in sorted order. */
  ghost function FirstKeys(cfg: Config, fields: map<Text, Json>, n: nat): set<Text>
    requires Sorts(cfg.order) && n <= |fields|
  {
    assert Lists(cfg.order(fields.Keys), fields.Keys) && |fields| == |fields.Keys|;
    Heads(cfg.order(fields.Keys), n)
  }

  ghost function Heads(list: seq<Text>, n: nat): set<Text>
    requires n <= |list|
  {
    set i | 0 <= i < n :: list[i]
  }

  lemma {:induction false} HeadsCount(list: seq<Text>, n: nat)
    requires n <= |list| && forall i, j :: 0 <= i < j < |list| ==> list[i] != list[j]
    ensures |Heads(list, n)| == n
  {
    if n == 0 {
      assert Heads(list, n) == {};
    } else {
      HeadsCount(list, n - 1);
      assert Heads(list, n) == Heads(list, n - 1) + {list[n - 1]};
    }
  }

  /** What an object under way has written: the keys done, and the mark once it stopped. */
  ghost predicate Accounts(cfg: Config, fields: map<Text, Json>, r: Partial, n: nat)
    requires Sorts(cfg.order) && n <= |fields|
  {
    && r.done <= n
    && r.written.Keys == FirstKeys(cfg, fields, r.done) + (if r.done < n then {OMITTED_FIELDS} else {})
    && (r.done < n ==> r.written[OMITTED_FIELDS] == Count(|fields| - r.done) && (r.done == MAX_KEYS || r.left <= 0))
  }

  /** An output is what becomes of a field under some budget. */
  ghost predicate FieldShown(cfg: Config, fields: map<Text, Json>, key: Text, path: Text, depth: nat, out: Json)
    requires Sorts(cfg.order) && depth < MAX_DEPTH
  {
    key in fields && exists left :: out == Field(cfg, key, fields[key], path, depth, left).value
  }

  /** Every field written is its input field sanitized, except the mark of a cut object. */
  ghost predicate Shown(cfg: Config, fields: map<Text, Json>, path: Text, depth: nat, written: map<Text, Json>, cut: bool)
    requires Sorts(cfg.order) && depth < MAX_DEPTH
  {
    forall key :: key in written && !(cut && key == OMITTED_FIELDS) ==> FieldShown(cfg, fields, key, path, depth, written[key])
  }

  lemma {:induction false} FieldsShown(cfg: Config, fields: map<Text, Json>, path: Text, depth: nat, left: int, n: nat)
    requires Sorts(cfg.order) && depth < MAX_DEPTH && n <= |fields|
    ensures var r := Fields(cfg, fields, path, depth, left, n); Shown(cfg, fields, path, depth, r.written, r.done < n)
    decreases n
  {
    if n > 0 {
      FieldsShown(cfg, fields, path, depth, left, n - 1);
      NextShown(cfg, fields, path, depth, n - 1, Fields(cfg, fields, path, depth, left, n - 1));
    }
  }

  lemma NextShown(cfg: Config, fields: map<Text, Json>, path: Text, depth: nat, i: nat, r: Partial)
    requires Sorts(cfg.order) && depth < MAX_DEPTH && i < |fields| && r.done <= Min(i, MAX_KEYS)
    requires Shown(cfg, fields, path, depth, r.written, r.done < i)
    ensures var next := NextField(cfg, fields, path, depth, i, r); Shown(cfg, fields, path, depth, next.written, next.done < i + 1)
  {
    if r.done == i < MAX_KEYS && r.left > 0 {
      var key := KeyAt(cfg, fields, i);
      assert FieldShown(cfg, fields, key, path, depth, Field(cfg, key, fields[key], path, depth, r.left).value);
    }
  }

  lemma FirstKeysSnoc(cfg: Config, fields: map<Text, Json>, n: nat)
    requires Sorts(cfg.order) && n < |fields|
    ensures FirstKeys(cfg, fields, n + 1) == FirstKeys(cfg, fields, n) + {KeyAt(cfg, fields, n)}
  {
  }

  lemma {:induction false} FieldsAccounted(cfg: Config, fields: map<Text, Json>, path: Text, depth: nat, left: int, n: nat)
    requires Sorts(cfg.order) && depth < MAX_DEPTH && n <= |fields|
    ensures Accounts(cfg, fields, Fields(cfg, fields, path, depth, left, n), n)
    decreases n
  {
    if n > 0 {
      FieldsAccounted(cfg, fields, path, depth, left, n - 1);
      FirstKeysSnoc(cfg, fields, n - 1);
    }
  }

  lemma AllKeys(cfg: Config, fields: map<Text, Json>)
    requires Sorts(cfg.order)
    ensures FirstKeys(cfg, fields, |fields|) == fields.Keys
  {
    var list := cfg.order(fields.Keys);
    assert Lists(list, fields.Keys) && |fields| == |fields.Keys|;
    forall key | key in fields
      ensures key in FirstKeys(cfg, fields, |fields|)
    {
      var i :| 0 <= i < |list| && list[i] == key;
      assert KeyAt(cfg, fields, i) == key;
    }
  }

  /** What becomes of all the fields of an object. */
  ghost function Whole(cfg: Config, fields: map<Text, Json>, path: Text, depth: nat, left: int): (r: Partial)
    requires Sorts(cfg.order) && depth < MAX_DEPTH && left > 0
    ensures r.done <= |fields| && r.done <= MAX_KEYS && r.left >= 0
  {
    Fields(cfg, fields, path, depth, left - 1, |fields|)
  }

  lemma WholeIsValue(cfg: Config, fields: map<Text, Json>, path: Text, depth: nat, left: int)
    requires Sorts(cfg.order) && depth < MAX_DEPTH && left > 0
    ensures var r := Whole(cfg, fields, path, depth, left);
            Value(cfg, Object(fields), path, depth, left) == Out(Object(r.written), r.left)
  {
  }

  lemma WholeAccounts(cfg: Config, fields: map<Text, Json>, path: Text, depth: nat, left: int)
    requires Sorts(cfg.order) && depth < MAX_DEPTH && left > 0
    ensures Accounts(cfg, fields, Whole(cfg, fields, path, depth, left), |fields|)
    ensures var r := Whole(cfg, fields, path, depth, left); Shown(cfg, fields, path, depth, r.written, r.done < |fields|)
  {
    FieldsAccounted(cfg, fields, path, depth, left - 1, |fields|);
    FieldsShown(cfg, fields, path, depth, left - 1, |fields|);
  }

  /** An object keeps its first keys in sorted order, each with its sanitized value; a cut object says
      how many are missing, and is cut only at 256 keys or an empty budget. */
  lemma ObjectAccounted(cfg: Config, fields: map<Text, Json>, path: Text, depth: nat, left: int)
    requires Sorts(cfg.order) && depth < MAX_DEPTH && left > 0
    ensures var r := Whole(cfg, fields, path, depth, left);
            && Value(cfg, Object(fields), path, depth, left) == Out(Object(r.written), r.left)
            && Shown(cfg, fields, path, depth, r.written, r.done < |fields|)
            && (r.done == |fields| ==> r.written.Keys == fields.Keys)
            && (r.done < |fields| ==>
                  r.written.Keys == FirstKeys(cfg, fields, r.done) + {Ascii("_request_log_omitted_fields")}
                  && r.written[OMITTED_FIELDS] == Count(|fields| - r.done) && (r.done == 256 || r.left == 0))
  {
    WholeIsValue(cfg, fields, path, depth, left);
    WholeAccounts(cfg, fields, path, depth, left);
    AllKeys(cfg, fields);
  }

  /** In every cut object the entries beside the mark and the number it holds add up to the original
      number of fields, exactly when no kept field already bore the mark's name. */
  lemma MarkAddsUpIff(cfg: Config, fields: map<Text, Json>, path: Text, depth: nat, left: int)
    requires Sorts(cfg.order) && depth < MAX_DEPTH && left > 0
    requires Whole(cfg, fields, path, depth, left).done < |fields|
    ensures var r := Whole(cfg, fields, path, depth, left);
            && Value(cfg, Object(fields), path, depth, left).value == Object(r.written)
            && OMITTED_FIELDS in r.written && r.written[OMITTED_FIELDS].Count?
            && (|r.written| - 1 + r.written[OMITTED_FIELDS].n == |fields| <==> OMITTED_FIELDS !in FirstKeys(cfg, fields, r.done))
  {
    var r := Whole(cfg, fields, path, depth, left);
    WholeIsValue(cfg, fields, path, depth, left);
    WholeAccounts(cfg, fields, path, depth, left);
    FirstKeysCount(cfg, fields, r.done);
    MarkCount(FirstKeys(cfg, fields, r.done), r.written.Keys);
    assert |r.written| == |r.written.Keys|;
  }

  lemma FirstKeysCount(cfg: Config, fields: map<Text, Json>, n: nat)
    requires Sorts(cfg.order) && n <= |fields|
    ensures |FirstKeys(cfg, fields, n)| == n
  {
    assert Lists(cfg.order(fields.Keys), fields.Keys);
    HeadsCount(cfg.order(fields.Keys), n);
  }

  lemma MarkCount(first: set<Text>, keys: set<Text>)
    requires keys == first + {OMITTED_FIELDS}
    ensures |keys| == if OMITTED_FIELDS in first then |first| else |first| + 1
  {
    if OMITTED_FIELDS in first {
      assert keys == first;
    }
  }
}
