// What the request log does show (common/request_log.go): the partner of what it hides. Values
// within the limits are shown as they are, scrubbed, masked or rendered, under the path that their
// keys spell; what is left out is named with its length.

module LogShown {

  import opened Prelude
  import opened LogText
  import opened LogCredentials
  import opened LogSanitizer

  /** A text that needs no cut and no escape. */
  predicate Fits(text: Text) {
    OneLine(text) && |text| <= 4096
  }

  // ---- Strings ---------------------------------------------------------------------

  /** An ordinary string that holds no private key is shown scrubbed, as it is when that fits. */
  lemma PlainShown(cfg: Config, text: Text)
    ensures !cfg.privateKey(text) && Fits(cfg.scrub(text)) ==> Plain(cfg, text) == cfg.scrub(text)
    ensures !cfg.privateKey(text) && |cfg.scrub(text)| > 4096 ==>
      Plain(cfg, text) == SingleLine(Truncated(cfg.scrub(text), 4096))
                        + (Ascii("... [truncated, original_length=") + Decimal(|cfg.scrub(text)|) + Ascii("]"))
    ensures cfg.privateKey(text) ==>
      Plain(cfg, text) == Ascii("[private key content omitted, original_length=") + Decimal(|text|) + Ascii("]")
  {
    SingleLineShape(cfg.scrub(text));
    BoundedTells(cfg.scrub(text), 4096);
  }

  /** Two ordinary strings whose scrubbed texts fit are shown alike exactly when these are the same. */
  lemma PlainAlikeIff(cfg: Config, a: Text, b: Text)
    requires !cfg.privateKey(a) && !cfg.privateKey(b) && Fits(cfg.scrub(a)) && Fits(cfg.scrub(b))
    ensures Plain(cfg, a) == Plain(cfg, b) <==> AlikePlain(cfg, a, b)
  {
    PlainShown(cfg, a);
    PlainShown(cfg, b);
  }

  /** Media, oversize and undecodable strings leave their kind and length, and nothing else. */
  lemma OmittedShown(cfg: Config, text: Text, path: Text, depth: nat, left: int)
    requires Sorts(cfg.order)
    ensures var r := FieldText(cfg, text, path, depth, left);
            && (cfg.media(path, text) ==>
                  r == Out(Ascii("[binary content omitted, original_length=") + Decimal(|text|) + Ascii("]"), left))
            && (!cfg.media(path, text) && cfg.structured(path, text) && |text| > 16384 ==>
                  r == Out(Ascii("[embedded JSON omitted: original_length=") + Decimal(|text|)
                           + Ascii(" exceeds safe logging limit=") + Decimal(16384) + Ascii("]"), left))
            && (!cfg.media(path, text) && cfg.structured(path, text) && |text| <= 16384 && cfg.decode(text).None? ==>
                  r == Out(Ascii("[invalid embedded JSON omitted, original_length=") + Decimal(|text|) + Ascii("]"), left))
            && (!cfg.media(path, text) && !cfg.structured(path, text) ==> r == Out(Plain(cfg, text), left))
  {
  }

  /** A string that holds JSON is shown as the rendering of that value, sanitized one level deeper. */
  lemma EmbeddedShown(cfg: Config, text: Text, path: Text, depth: nat, left: int)
    requires Sorts(cfg.order)
    requires !cfg.media(path, text) && cfg.structured(path, text) && |text| <= 16384 && cfg.decode(text).Some?
    ensures var inner := Value(cfg, cfg.decode(text).value, path, depth + 1, left);
            var r, shown := FieldText(cfg, text, path, depth, left), cfg.render(inner.value);
            && r.left == inner.left
            && (shown.None? ==> r.value == Ascii("[embedded JSON rendering failed]"))
            && (shown.Some? && Fits(shown.value) ==> r.value == shown.value)
            && (shown.Some? && |shown.value| > 4096 ==>
                  r.value == SingleLine(Truncated(shown.value, 4096))
                           + (Ascii("... [truncated, original_length=") + Decimal(|shown.value|) + Ascii("]")))
  {
    var shown := cfg.render(Value(cfg, cfg.decode(text).value, path, depth + 1, left).value);
    if shown.Some? {
      SingleLineShape(shown.value);
      BoundedTells(shown.value, 4096);
    }
  }

  // ---- Values ------------------------------------------------------------------------

  /** Numbers, booleans and null are shown as they are; strings as strings; nothing below depth 32. */
  lemma LeavesShown(cfg: Config, v: Json, path: Text, depth: nat, left: int)
    requires Sorts(cfg.order)
    ensures depth >= 32 || left <= 0 ==>
      Value(cfg, v, path, depth, left) == Out(Str(Ascii("[nested content omitted: logging budget exceeded]")), left)
    ensures depth < 32 && left > 0 && (v.Atom? || v.Count?) ==> Value(cfg, v, path, depth, left) == Out(v, left - 1)
    ensures depth < 32 && left > 0 && v.Str? ==>
      var r := FieldText(cfg, v.text, path, depth, left - 1); Value(cfg, v, path, depth, left) == Out(Str(r.value), r.left)
  {
  }

  lemma OneField(cfg: Config, key: Text, v: Json, path: Text, depth: nat, left: int)
    requires Sorts(cfg.order) && depth < 32 && left > 1
    ensures var item := Field(cfg, key, v, path, depth, left - 1);
            Value(cfg, Object(map[key := v]), path, depth, left) == Out(Object(map[key := item.value]), item.left)
  {
    var fields := map[key := v];
    assert fields.Keys == {key};
    WholeIsValue(cfg, fields, path, depth, left);
    assert Lists(cfg.order(fields.Keys), fields.Keys);
    assert KeyAt(cfg, fields, 0) == key;
    OneStep(cfg, fields, key, path, depth, left - 1);
  }

  lemma OneStep(cfg: Config, fields: map<Text, Json>, key: Text, path: Text, depth: nat, left: int)
    requires Sorts(cfg.order) && depth < 32 && left > 0 && |fields| == 1 && KeyAt(cfg, fields, 0) == key
    ensures var item := Field(cfg, key, fields[key], path, depth, left);
            Fields(cfg, fields, path, depth, left, 1) == Partial(map[key := item.value], 1, item.left)
  {
    assert Fields(cfg, fields, path, depth, left, 0) == Partial(map[], 0, left);
  }

  function Below(path: Text, key: Text): Text {
    if path == [] then key else path + Ascii(".") + key
  }

  lemma FieldAs(cfg: Config, key: Text, v: Json, path: Text, depth: nat, left: int)
    requires Sorts(cfg.order) && depth < 32
    ensures Field(cfg, key, v, path, depth, left)
         == if cfg.rules.sensitive(key)
            then Out(Str(if v.Str? then MaskedFor(cfg.rules, key, v.text) else Ascii("***masked***")), left)
            else Value(cfg, v, Below(path, key), depth + 1, left)
  {
    assert Ascii(".") == [46];
  }

  /** One field of an object is shown under its name: masked if the key is sensitive, else sanitized one
      level deeper under the path that ends in its name. */
  lemma FieldShownAs(cfg: Config, key: Text, v: Json, path: Text, depth: nat, left: int)
    requires Sorts(cfg.order) && depth < 32 && left > 1
    ensures var inner := Value(cfg, v, Below(path, key), depth + 1, left - 1);
            Value(cfg, Object(map[key := v]), path, depth, left) ==
            if cfg.rules.sensitive(key)
            then Out(Object(map[key := Str(if v.Str? then MaskedFor(cfg.rules, key, v.text) else Ascii("***masked***"))]), left - 1)
            else Out(Object(map[key := inner.value]), inner.left)
  {
    OneField(cfg, key, v, path, depth, left);
    FieldAs(cfg, key, v, path, depth, left - 1);
  }

  /** Under an ordinary sensitive key two strings, neither of the basic scheme, are logged alike exactly when
      they leave the same print. */
  lemma SecretsAlikeIff(cfg: Config, key: Text, a: Text, b: Text, path: Text, depth: nat, left: int)
    requires Sorts(cfg.order) && depth < 32 && left > 1 && cfg.rules.sensitive(key)
    requires !cfg.rules.neverFingerprinted(key) && !cfg.rules.authorization(key)
    requires forall v :: v == a || v == b ==> cfg.rules.words(v) == [] || !cfg.rules.isBasic(cfg.rules.words(v)[0])
    ensures Value(cfg, Object(map[key := Str(a)]), path, depth, left) == Value(cfg, Object(map[key := Str(b)]), path, depth, left)
       <==> Print(cfg.rules, a) == Print(cfg.rules, b)
  {
    FieldShownAs(cfg, key, Str(a), path, depth, left);
    FieldShownAs(cfg, key, Str(b), path, depth, left);
    MaskedShowsIff(cfg.rules, key, a, b);
    assert map[key := Str(MaskedFor(cfg.rules, key, a))][key] == Str(MaskedFor(cfg.rules, key, a));
    assert map[key := Str(MaskedFor(cfg.rules, key, b))][key] == Str(MaskedFor(cfg.rules, key, b));
  }

  /** The items of an array are shown in place, under the path of the array itself. */
  lemma ItemShownAs(cfg: Config, v: Json, path: Text, depth: nat, left: int)
    requires Sorts(cfg.order) && depth < 32 && left > 1
    ensures var inner := Value(cfg, v, path, depth + 1, left - 1);
            Value(cfg, Array([v]), path, depth, left) == Out(Array([inner.value]), inner.left)
  {
    assert Items(cfg, [v], path, depth, left - 1, 0) == Out([], left - 1);
    EmptyConcat([Value(cfg, v, path, depth + 1, left - 1).value]);
  }

  /** A string inside two objects is read under both names, joined by a dot. */
  lemma NestedShown(cfg: Config, outer: Text, key: Text, text: Text, left: int)
    requires Sorts(cfg.order) && left > 3 && outer != [] && !cfg.rules.sensitive(outer) && !cfg.rules.sensitive(key)
    ensures var r := FieldText(cfg, text, outer + Ascii(".") + key, 2, left - 3);
            Value(cfg, Object(map[outer := Object(map[key := Str(text)])]), [], 0, left) ==
            Out(Object(map[outer := Object(map[key := Str(r.value)])]), r.left)
  {
    FieldShownAs(cfg, outer, Object(map[key := Str(text)]), [], 0, left);
    InnerShown(cfg, outer, key, text, left - 1);
  }

  lemma InnerShown(cfg: Config, path: Text, key: Text, text: Text, left: int)
    requires Sorts(cfg.order) && left > 2 && path != [] && !cfg.rules.sensitive(key)
    ensures var r := FieldText(cfg, text, path + Ascii(".") + key, 2, left - 2);
            Value(cfg, Object(map[key := Str(text)]), path, 1, left) == Out(Object(map[key := Str(r.value)]), r.left)
  {
    FieldShownAs(cfg, key, Str(text), path, 1, left);
    LeavesShown(cfg, Str(text), Below(path, key), 2, left - 1);
  }
}
