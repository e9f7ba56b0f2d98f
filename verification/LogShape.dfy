// What every output of the request-log sanitizer looks like, whatever the input
// (common/request_log.go): bounded depth, bounded containers, one-line strings.

module LogShape {

  import opened LogText
  import opened LogCredentials
  import opened LogSanitizer

  /** At most so many levels deep, no container over its limit, no string over one line. */
  ghost predicate Tidy(v: Json, levels: nat)
    decreases levels, 0
  {
    match v
    case Str(text) => OneLine(text)
    case Array(items) => levels > 0 && |items| <= 257 && TidyItems(items, levels - 1)
    case Object(fields) => levels > 0 && |fields| <= 257 && TidyFields(fields, levels - 1)
    case _ => true
  }

  ghost predicate TidyItems(items: seq<Json>, levels: nat)
    decreases levels, 1
  {
    forall i :: 0 <= i < |items| ==> Tidy(items[i], levels)
  }

  ghost predicate TidyFields(fields: map<Text, Json>, levels: nat)
    decreases levels, 1
  {
    forall key :: key in fields ==> Tidy(fields[key], levels)
  }

  function Levels(depth: nat): nat {
    if depth >= 32 then 1 else 33 - depth
  }

  // ---- Strings ----------------------------------------------------------------------

  lemma PrintableIsOneLine(s: Text)
    requires Printable(s)
    ensures OneLine(s)
  {
  }

  lemma PlainIsOneLine(cfg: Config, text: Text)
    ensures OneLine(Plain(cfg, text))
  {
    if cfg.privateKey(text) {
      PrintableIsOneLine(Noted(PRIVATE, |text|));
    } else {
      var clean := cfg.scrub(text);
      BoundedShape(clean, STRING_LIMIT, LengthMark(|clean|));
    }
  }

  lemma RenderedIsOneLine(cfg: Config, value: Json)
    ensures OneLine(Rendered(cfg, value))
  {
    match cfg.render(value)
    case None =>
      PrintableIsOneLine(UNRENDERED);
    case Some(text) =>
      BoundedShape(text, STRING_LIMIT, LengthMark(|text|));
  }

  lemma TextIsOneLine(cfg: Config, text: Text, path: Text, depth: nat, left: int)
    requires Sorts(cfg.order)
    ensures OneLine(FieldText(cfg, text, path, depth, left).value)
  {
    if cfg.media(path, text) {
      PrintableIsOneLine(Noted(BINARY, |text|));
    } else if !cfg.structured(path, text) {
      PlainIsOneLine(cfg, text);
    } else if |text| > EMBEDDED_LIMIT {
      PrintableIsOneLine(OversizeNote(|text|));
    } else if cfg.decode(text).None? {
      PrintableIsOneLine(Noted(INVALID, |text|));
    } else {
      RenderedIsOneLine(cfg, Value(cfg, cfg.decode(text).value, path, depth + 1, left).value);
    }
  }

  lemma MaskedFieldIsTidy(cfg: Config, key: Text, value: Json, levels: nat)
    requires Regular(cfg.rules)
    ensures Tidy(MaskedField(cfg, key, value), levels)
  {
    if value.Str? {
      MaskedIsOneLine(cfg.rules, key, value.text);
    } else {
      PrintableIsOneLine(MASKED);
    }
  }

  // ---- Containers ---------------------------------------------------------------------

  lemma Grows(m: map<Text, Json>, key: Text, value: Json, levels: nat)
    requires TidyFields(m, levels) && Tidy(value, levels)
    ensures |m[key := value]| <= |m| + 1 && TidyFields(m[key := value], levels)
  {
    assert m[key := value].Keys == m.Keys + {key};
    assert |m| == |m.Keys| && |m[key := value]| == |m[key := value].Keys|;
  }

  lemma OmissionIsTidy(items: seq<Json>, count: nat, levels: nat)
    requires TidyItems(items, levels) && levels > 0
    ensures TidyItems(items + Omission(count), levels)
  {
    var mark := map[OMITTED_ITEMS := Count(count)];
    assert TidyFields(mark, levels - 1);
    assert |mark| == 1;
    assert Tidy(Object(mark), levels);
  }

  /** Whatever comes in, what goes out is tidy. */
  lemma {:induction false} OutputTidy(cfg: Config, v: Json, path: Text, depth: nat, left: int)
    requires Sorts(cfg.order) && Regular(cfg.rules)
    ensures Tidy(Value(cfg, v, path, depth, left).value, Levels(depth))
    decreases ValueRank(depth), 1, 0
  {
    if depth >= MAX_DEPTH || left <= 0 {
      PrintableIsOneLine(NESTED);
    } else if v.Object? {
      FieldsTidy(cfg, v.fields, path, depth, left - 1, |v.fields|);
      ObjectTidy(cfg, v.fields, path, depth, left);
    } else if v.Array? {
      ItemsTidy(cfg, v.items, path, depth, left - 1, Min(|v.items|, MAX_ITEMS));
      ArrayTidy(cfg, v.items, path, depth, left);
    } else if v.Str? {
      TextIsOneLine(cfg, v.text, path, depth, left - 1);
    }
  }

  lemma ObjectTidy(cfg: Config, fields: map<Text, Json>, path: Text, depth: nat, left: int)
    requires Sorts(cfg.order) && depth < MAX_DEPTH && left > 0
    requires TidyPartial(Whole(cfg, fields, path, depth, left), |fields|, Levels(depth + 1))
    ensures Tidy(Value(cfg, Object(fields), path, depth, left).value, Levels(depth))
  {
    WholeIsValue(cfg, fields, path, depth, left);
  }

  lemma ArrayTidy(cfg: Config, items: seq<Json>, path: Text, depth: nat, left: int)
    requires Sorts(cfg.order) && depth < MAX_DEPTH && left > 0
    requires TidyItems(Items(cfg, items, path, depth, left - 1, Min(|items|, MAX_ITEMS)).value, Levels(depth + 1))
    ensures Tidy(Value(cfg, Array(items), path, depth, left).value, Levels(depth))
  {
    var r := Items(cfg, items, path, depth, left - 1, Min(|items|, MAX_ITEMS));
    OmissionIsTidy(r.value, |items| - |r.value|, Levels(depth + 1));
  }

  /** An object under way holds one field per key done, and one more once it stopped. */
  ghost predicate TidyPartial(r: Partial, n: nat, levels: nat) {
    TidyFields(r.written, levels) && |r.written| <= if r.done < n then r.done + 1 else r.done
  }

  lemma {:induction false} FieldsTidy(cfg: Config, fields: map<Text, Json>, path: Text, depth: nat, left: int, n: nat)
    requires Sorts(cfg.order) && Regular(cfg.rules) && depth < MAX_DEPTH && n <= |fields|
    ensures TidyPartial(Fields(cfg, fields, path, depth, left, n), n, Levels(depth + 1))
    decreases ValueRank(depth), 0, n + 2
  {
    if n > 0 {
      FieldsTidy(cfg, fields, path, depth, left, n - 1);
      NextTidy(cfg, fields, path, depth, n - 1, Fields(cfg, fields, path, depth, left, n - 1));
    }
  }

  lemma {:induction false} NextTidy(cfg: Config, fields: map<Text, Json>, path: Text, depth: nat, i: nat, r: Partial)
    requires Sorts(cfg.order) && Regular(cfg.rules) && depth < MAX_DEPTH && i < |fields| && r.done <= Min(i, MAX_KEYS)
    requires TidyPartial(r, i, Levels(depth + 1))
    ensures TidyPartial(NextField(cfg, fields, path, depth, i, r), i + 1, Levels(depth + 1))
    decreases ValueRank(depth), 0, 1
  {
    if r.done == i {
      if i >= MAX_KEYS || r.left <= 0 {
        Grows(r.written, OMITTED_FIELDS, Count(|fields| - i), Levels(depth + 1));
      } else {
        var key := KeyAt(cfg, fields, i);
        FieldTidy(cfg, key, fields[key], path, depth, r.left);
        Grows(r.written, key, Field(cfg, key, fields[key], path, depth, r.left).value, Levels(depth + 1));
      }
    }
  }

  lemma {:induction false} FieldTidy(cfg: Config, key: Text, value: Json, path: Text, depth: nat, left: int)
    requires Sorts(cfg.order) && Regular(cfg.rules) && depth < MAX_DEPTH
    ensures Tidy(Field(cfg, key, value, path, depth, left).value, Levels(depth + 1))
    decreases ValueRank(depth), 0, 0
  {
    if cfg.rules.sensitive(key) {
      MaskedFieldIsTidy(cfg, key, value, Levels(depth + 1));
    } else {
      OutputTidy(cfg, value, PathTo(path, key), depth + 1, left);
    }
  }

  lemma {:induction false} ItemsTidy(cfg: Config, items: seq<Json>, path: Text, depth: nat, left: int, n: nat)
    requires Sorts(cfg.order) && Regular(cfg.rules) && depth < MAX_DEPTH && n <= |items|
    ensures TidyItems(Items(cfg, items, path, depth, left, n).value, Levels(depth + 1))
    decreases ValueRank(depth), 0, n
  {
    if n > 0 {
      ItemsTidy(cfg, items, path, depth, left, n - 1);
      OutputTidy(cfg, items[n - 1], path, depth + 1, Items(cfg, items, path, depth, left, n - 1).left);
    }
  }

  /** Field names are not escaped: those of an output are one line each exactly when the names it keeps are. */
  lemma NamesOneLineIff(cfg: Config, fields: map<Text, Json>, path: Text, depth: nat, left: int)
    requires Sorts(cfg.order) && depth < MAX_DEPTH && left > 0
    ensures var r := Whole(cfg, fields, path, depth, left);
            && Value(cfg, Object(fields), path, depth, left).value == Object(r.written)
            && ((forall name :: name in r.written ==> OneLine(name))
                <==> (forall name :: name in FirstKeys(cfg, fields, r.done) ==> OneLine(name)))
  {
    var r := Whole(cfg, fields, path, depth, left);
    WholeIsValue(cfg, fields, path, depth, left);
    WholeAccounts(cfg, fields, path, depth, left);
    PrintableIsOneLine(OMITTED_FIELDS);
    assert forall name :: name in r.written <==> name in r.written.Keys;
  }
}
