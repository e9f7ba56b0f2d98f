// A concrete object in which the sanitizer's omission mark overwrites a field
// (common/request_log.go).

module LogMark {

  import opened Prelude
  import opened LogText
  import opened LogSanitizer

  /** The mark's name and 256 names after it: a z and two digits to base 16, written as the bytes 48 to 63. */
  function Names(): (r: seq<Text>)
    ensures |r| == 257 && r[0] == OMITTED_FIELDS
  {
    [OMITTED_FIELDS] + seq(256, i requires 0 <= i < 256 => [122, (48 + i / 16) as Byte, (48 + i % 16) as Byte])
  }

  lemma NamesDistinct()
    ensures |Names()| == 257 && forall i, j :: 0 <= i < j < |Names()| ==> Names()[i] != Names()[j]
  {
    assert |OMITTED_FIELDS| > 3;
  }

  ghost function ManyFields(): map<Text, Json> {
    map name | name in Names() :: Atom([48])
  }

  lemma ManyFieldsCount()
    ensures |ManyFields()| == 257 && ManyFields().Keys == Heads(Names(), 257)
  {
    NamesDistinct();
    HeadsCount(Names(), 257);
    assert ManyFields().Keys == Heads(Names(), 257);
    assert |ManyFields()| == |ManyFields().Keys|;
  }

  lemma {:induction false} AtomsKept(cfg: Config, fields: map<Text, Json>, path: Text, depth: nat, left: int, n: nat)
    requires Sorts(cfg.order) && depth < MAX_DEPTH && n <= |fields| && n <= MAX_KEYS && left > n
    requires forall key :: key in fields ==> fields[key].Atom?
    ensures var r := Fields(cfg, fields, path, depth, left, n); r.done == n && r.left >= left - n
    decreases n
  {
    if n > 0 {
      AtomsKept(cfg, fields, path, depth, left, n - 1);
      var r, key := Fields(cfg, fields, path, depth, left, n - 1), KeyAt(cfg, fields, n - 1);
      AtomSpends(cfg, key, fields[key], path, depth, r.left);
    }
  }

  lemma AtomSpends(cfg: Config, key: Text, value: Json, path: Text, depth: nat, left: int)
    requires Sorts(cfg.order) && depth < MAX_DEPTH && value.Atom? && left > 0
    ensures Field(cfg, key, value, path, depth, left).left >= left - 1
  {
  }

  /** An object of more than 256 numbers in which the mark's name sorts among the first 256, met with
      budget enough for them: the mark replaces a field, so one entry is missing from the sum. */
  lemma MarkReplaces(cfg: Config, fields: map<Text, Json>, path: Text, depth: nat, left: int)
    requires Sorts(cfg.order) && depth < MAX_DEPTH && left > MAX_KEYS + 1
    requires |fields| > MAX_KEYS && (forall key :: key in fields ==> fields[key].Atom?)
    requires OMITTED_FIELDS in FirstKeys(cfg, fields, MAX_KEYS)
    ensures var r := Whole(cfg, fields, path, depth, left);
            && Value(cfg, Object(fields), path, depth, left).value == Object(r.written)
            && r.done == |r.written| == MAX_KEYS
            && OMITTED_FIELDS in r.written && r.written[OMITTED_FIELDS] == Count(|fields| - MAX_KEYS)
  {
    AtomsStop(cfg, fields, path, depth, left);
    WholeIsValue(cfg, fields, path, depth, left);
    WholeAccounts(cfg, fields, path, depth, left);
    var r := Whole(cfg, fields, path, depth, left);
    FirstKeysCount(cfg, fields, MAX_KEYS);
    MarkCount(FirstKeys(cfg, fields, MAX_KEYS), r.written.Keys);
    assert |r.written| == |r.written.Keys|;
  }

  lemma {:induction false} DoneGrows(cfg: Config, fields: map<Text, Json>, path: Text, depth: nat, left: int, m: nat, n: nat)
    requires Sorts(cfg.order) && depth < MAX_DEPTH && m <= n <= |fields|
    ensures Fields(cfg, fields, path, depth, left, m).done <= Fields(cfg, fields, path, depth, left, n).done
    decreases n
  {
    if m < n {
      DoneGrows(cfg, fields, path, depth, left, m, n - 1);
    }
  }

  lemma AtomsStop(cfg: Config, fields: map<Text, Json>, path: Text, depth: nat, left: int)
    requires Sorts(cfg.order) && depth < MAX_DEPTH && left > MAX_KEYS + 1
    requires |fields| > MAX_KEYS && (forall key :: key in fields ==> fields[key].Atom?)
    ensures Whole(cfg, fields, path, depth, left).done == MAX_KEYS
  {
    AtomsKept(cfg, fields, path, depth, left - 1, MAX_KEYS);
    DoneGrows(cfg, fields, path, depth, left - 1, MAX_KEYS, |fields|);
  }

  /** A concrete one: 257 numbers, one of them under the mark's own name, which the sort puts first.
      The output has 256 entries, the mark among them, and the mark says that one is missing. */
  lemma MarkOverwrites(cfg: Config, path: Text, depth: nat, left: int)
    requires Sorts(cfg.order) && cfg.order(Heads(Names(), 257)) == Names()
    requires depth < MAX_DEPTH && left > MAX_KEYS + 1
    ensures |ManyFields()| == 257
    ensures var r := Whole(cfg, ManyFields(), path, depth, left);
            && Value(cfg, Object(ManyFields()), path, depth, left).value == Object(r.written)
            && |r.written| == 256 && OMITTED_FIELDS in r.written && r.written[OMITTED_FIELDS] == Count(1)
  {
    ManyFieldsCount();
    MarkIsFirst(cfg);
    MarkReplaces(cfg, ManyFields(), path, depth, left);
  }

  lemma MarkIsFirst(cfg: Config)
    requires Sorts(cfg.order) && cfg.order(Heads(Names(), 257)) == Names()
    requires |ManyFields()| == 257
    ensures OMITTED_FIELDS in FirstKeys(cfg, ManyFields(), 256)
  {
    ManyFieldsCount();
    assert Names()[0] in Heads(Names(), 256);
  }
}
