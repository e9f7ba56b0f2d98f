// The sanitizer as the program runs it (common/request_log.go): loops that fill
// maps and slices while one counter, shared by every level, goes down.

module LogWalk {

  import opened Prelude
  import opened LogText
  import opened LogSanitizer

  /** The shared counter, with a record of the depth of every node visited. */
  class NodeBudget {
    var left: int
    ghost var visits: seq<nat>

    ghost predicate Valid()
      reads this
    {
      && left >= 0 && |visits| + left == MAX_NODES
      && forall i :: 0 <= i < |visits| ==> visits[i] < MAX_DEPTH
    }

    constructor ()
      ensures Valid() && left == MAX_NODES && visits == []
    {
      left, visits := MAX_NODES, [];
    }

    method Visit(depth: nat)
      requires Valid() && left > 0 && depth < MAX_DEPTH
      modifies this
      ensures Valid() && left == old(left) - 1 && visits == old(visits) + [depth]
    {
      left, visits := left - 1, visits + [depth];
    }
  }

  method SanitizeValue(cfg: Config, v: Json, path: Text, depth: nat, budget: NodeBudget) returns (r: Json)
    requires Sorts(cfg.order) && budget.Valid()
    modifies budget
    ensures budget.Valid() && Out(r, budget.left) == Value(cfg, v, path, depth, old(budget.left))
    decreases ValueRank(depth), 1, 0
  {
    if depth >= MAX_DEPTH || budget.left <= 0 {
      return Str(NESTED);
    }
    budget.Visit(depth);
    match v {
      case Object(fields) =>
        var written := SanitizeFields(cfg, fields, path, depth, budget);
        r := Object(written);
      case Array(items) =>
        var kept := SanitizeItems(cfg, items, path, depth, budget);
        if |kept| < |items| {
          kept := kept + [Object(map[OMITTED_ITEMS := Count(|items| - |kept|)])];
        } else {
          EmptyConcat(kept);
        }
        r := Array(kept);
      case Str(text) =>
        var shown := SanitizeText(cfg, path, text, depth, budget);
        r := Str(shown);
      case _ =>
        r := v;
    }
  }

  lemma FieldDone(cfg: Config, fields: map<Text, Json>, path: Text, depth: nat, left: int, i: nat, r: Partial, item: Out<Json>)
    requires Sorts(cfg.order) && depth < MAX_DEPTH && i < |fields|
    requires r == Fields(cfg, fields, path, depth, left, i) && r.done == i < MAX_KEYS && r.left > 0
    requires var key := KeyAt(cfg, fields, i); item == Field(cfg, key, fields[key], path, depth, r.left)
    ensures Fields(cfg, fields, path, depth, left, i + 1)
         == Partial(r.written[KeyAt(cfg, fields, i) := item.value], i + 1, item.left)
  {
  }

  method SanitizeFields(cfg: Config, fields: map<Text, Json>, path: Text, depth: nat, budget: NodeBudget)
    returns (written: map<Text, Json>)
    requires Sorts(cfg.order) && budget.Valid() && depth < MAX_DEPTH
    modifies budget
    ensures budget.Valid()
    ensures var r := Fields(cfg, fields, path, depth, old(budget.left), |fields|);
            written == r.written && budget.left == r.left
    decreases ValueRank(depth), 0, 1
  {
    var keys := cfg.order(fields.Keys);
    assert Lists(keys, fields.Keys) && |fields.Keys| == |fields|;
    written := map[];
    for i := 0 to |keys|
      invariant budget.Valid()
      invariant Partial(written, i, budget.left) == Fields(cfg, fields, path, depth, old(budget.left), i)
    {
      if i >= MAX_KEYS || budget.left <= 0 {
        written := written[OMITTED_FIELDS := Count(|keys| - i)];
        FieldsStay(cfg, fields, path, depth, old(budget.left), i + 1, |fields|);
        break;
      }
      var key := keys[i];
      assert KeyAt(cfg, fields, i) == key;
      ghost var r := Partial(written, i, budget.left);
      var item := SanitizeField(cfg, key, fields[key], path, depth, budget);
      written := written[key := item];
      FieldDone(cfg, fields, path, depth, old(budget.left), i, r, Out(item, budget.left));
    }
  }

  method SanitizeField(cfg: Config, key: Text, value: Json, path: Text, depth: nat, budget: NodeBudget) returns (r: Json)
    requires Sorts(cfg.order) && budget.Valid() && depth < MAX_DEPTH
    modifies budget
    ensures budget.Valid() && Out(r, budget.left) == Field(cfg, key, value, path, depth, old(budget.left))
    decreases ValueRank(depth), 0, 0
  {
    if cfg.rules.sensitive(key) {
      r := MaskedField(cfg, key, value);
    } else {
      r := SanitizeValue(cfg, value, PathTo(path, key), depth + 1, budget);
    }
  }

  method SanitizeItems(cfg: Config, items: seq<Json>, path: Text, depth: nat, budget: NodeBudget) returns (kept: seq<Json>)
    requires Sorts(cfg.order) && budget.Valid() && depth < MAX_DEPTH
    modifies budget
    ensures budget.Valid()
    ensures Out(kept, budget.left) == Items(cfg, items, path, depth, old(budget.left), Min(|items|, MAX_ITEMS))
    decreases ValueRank(depth), 0, 0
  {
    var limit := Min(|items|, MAX_ITEMS);
    kept := [];
    var i := 0;
    while i < limit && budget.left > 0
      invariant i <= limit && budget.Valid()
      invariant Out(kept, budget.left) == Items(cfg, items, path, depth, old(budget.left), i)
    {
      var item := SanitizeValue(cfg, items[i], path, depth + 1, budget);
      kept := kept + [item];
      i := i + 1;
    }
    ItemsStay(cfg, items, path, depth, old(budget.left), i, limit);
  }

  method SanitizeText(cfg: Config, path: Text, text: Text, depth: nat, budget: NodeBudget) returns (r: Text)
    requires Sorts(cfg.order) && budget.Valid()
    modifies budget
    ensures budget.Valid() && Out(r, budget.left) == FieldText(cfg, text, path, depth, old(budget.left))
    decreases TextRank(depth), 0, 0
  {
    if cfg.media(path, text) {
      return Noted(BINARY, |text|);
    }
    if cfg.structured(path, text) {
      if |text| > EMBEDDED_LIMIT {
        return OversizeNote(|text|);
      }
      var nested := cfg.decode(text);
      if nested.None? {
        return Noted(INVALID, |text|);
      }
      var value := SanitizeValue(cfg, nested.value, path, depth + 1, budget);
      var rendered := cfg.render(value);
      if rendered.None? {
        return UNRENDERED;
      }
      r := TruncateString(rendered.value, STRING_LIMIT);
      return;
    }
    r := SanitizeString(cfg, text);
  }

  method SanitizeString(cfg: Config, text: Text) returns (r: Text)
    ensures r == Plain(cfg, text)
  {
    if cfg.privateKey(text) {
      return Noted(PRIVATE, |text|);
    }
    r := TruncateString(cfg.scrub(text), STRING_LIMIT);
  }

  /** A whole value: at most 4096 nodes are visited, none at depth 32 or below. */
  method Sanitize(cfg: Config, v: Json, path: Text) returns (r: Json, ghost visits: seq<nat>)
    requires Sorts(cfg.order)
    ensures r == Value(cfg, v, path, 0, 4096).value
    ensures |visits| == 4096 - Value(cfg, v, path, 0, 4096).left <= 4096
    ensures forall i :: 0 <= i < |visits| ==> visits[i] < 32
  {
    var budget := new NodeBudget();
    r := SanitizeValue(cfg, v, path, 0, budget);
    visits := budget.visits;
  }

  // ---- A loop that ended stays as it is ---------------------------------------------------

  lemma {:induction false} FieldsStay(cfg: Config, fields: map<Text, Json>, path: Text, depth: nat, left: int, m: nat, n: nat)
    requires Sorts(cfg.order) && depth < MAX_DEPTH && m <= n <= |fields|
    requires Fields(cfg, fields, path, depth, left, m).done < m
    ensures Fields(cfg, fields, path, depth, left, n) == Fields(cfg, fields, path, depth, left, m)
    decreases n
  {
    if m < n {
      FieldsStay(cfg, fields, path, depth, left, m, n - 1);
    }
  }

  lemma {:induction false} ItemsStay(cfg: Config, items: seq<Json>, path: Text, depth: nat, left: int, m: nat, n: nat)
    requires Sorts(cfg.order) && depth < MAX_DEPTH && m <= n <= |items|
    requires m == n || Items(cfg, items, path, depth, left, m).left <= 0
    ensures Items(cfg, items, path, depth, left, n) == Items(cfg, items, path, depth, left, m)
    decreases n
  {
    if m < n {
      ItemsStay(cfg, items, path, depth, left, m, n - 1);
    }
  }
}
