// Masking of `key = value` assignments in free text (common/request_log.go).
// The pattern matches are given: where each match starts and ends and where its
// key lies. The scanner finds the value after a match, minding quotes and
// escapes, and writes a mask in its place.

module LogMasker {

  import opened Prelude
  import opened LogText
  import opened LogCredentials

  /** One match of the assignment pattern; the value begins where it ends. */
  datatype Match = Match(start: nat, end: nat, keyStart: nat, keyEnd: nat)

  /** Bytes `from` to `to` of the input give way to a text. */
  datatype Edit = Edit(from: nat, to: nat, text: Text)

  const BACKSLASH: Byte := 92

  predicate InBounds(value: Text, m: Match) {
    m.start <= m.keyStart <= m.keyEnd <= m.end <= |value|
  }

  predicate AllInBounds(value: Text, matches: seq<Match>) {
    forall i :: 0 <= i < |matches| ==> InBounds(value, matches[i])
  }

  predicate Quote(b: Byte) {
    b == 39 || b == 34
  }

  /** Blank, tab, line breaks, comma, semicolon, ampersand, closing braces and quotes. */
  predicate Delimiter(b: Byte) {
    b in [32, 9, 13, 10, 44, 59, 38, 125, 93, 34, 39]
  }

  /** A bare value runs up to the first of these characters; a quoted one starts with a quote. */
  lemma DelimiterIff(b: Byte)
    ensures Delimiter(b) <==> b as int as char in " \t\r\n,;&}]\"'"
    ensures Quote(b) <==> b as int as char in "\"'"
    ensures BACKSLASH as int as char == '\\'
  {
    CharsOfBytes(b);
  }

  lemma CharsOfBytes(b: Byte)
    ensures forall i :: 0 <= i < 11 ==> (b as int as char == " \t\r\n,;&}]\"'"[i] <==> b as int == " \t\r\n,;&}]\"'"[i] as int)
  {
  }

  // ---- Where a value lies -----------------------------------------------------------

  predicate Quoted(value: Text, at: nat) {
    at < |value| && Quote(value[at])
  }

  /** How many backslashes stand directly before a position, back to where the value starts. */
  function Slashes(value: Text, from: nat, j: nat): nat
    requires from <= j <= |value|
  {
    if j == from || value[j - 1] != BACKSLASH then 0 else 1 + Slashes(value, from, j - 1)
  }

  /** The closing quote: the opening one again, after an even number of backslashes. */
  predicate Closes(value: Text, from: nat, quote: Byte, j: nat)
    requires from <= j < |value|
  {
    value[j] == quote && Slashes(value, from, j) % 2 == 0
  }

  /** The value that starts after `at` stops at j. */
  predicate Stops(value: Text, at: nat, j: nat)
    requires From(value, at) <= j < |value|
  {
    if Quoted(value, at) then Closes(value, at + 1, value[at], j) else Delimiter(value[j])
  }

  function From(value: Text, at: nat): nat {
    if Quoted(value, at) then at + 1 else at
  }

  /** The first position that stops the value, or the end of the input. */
  predicate IsEnd(value: Text, at: nat, to: nat) {
    && From(value, at) <= to <= |value|
    && (to < |value| ==> Stops(value, at, to))
    && forall j :: From(value, at) <= j < to ==> !Stops(value, at, j)
  }

  method ScanQuoted(value: Text, at: nat) returns (to: nat)
    requires Quoted(value, at)
    ensures IsEnd(value, at, to)
  {
    var quote := value[at];
    to := at + 1;
    while to < |value|
      invariant at + 1 <= to <= |value|
      invariant Slashes(value, at + 1, to) % 2 == 0 || to == |value|
      invariant forall j :: at + 1 <= j < to ==> !Stops(value, at, j)
    {
      if value[to] == BACKSLASH && to + 1 < |value| {
        assert Slashes(value, at + 1, to + 1) == 1 + Slashes(value, at + 1, to);
        to := to + 2;
      } else if value[to] == quote {
        return;
      } else {
        to := to + 1;
      }
    }
  }

  method ScanBare(value: Text, at: nat) returns (to: nat)
    requires at <= |value| && !Quoted(value, at)
    ensures IsEnd(value, at, to)
  {
    to := at;
    while to < |value| && !Delimiter(value[to])
      invariant at <= to <= |value|
      invariant forall j :: at <= j < to ==> !Stops(value, at, j)
    {
      to := to + 1;
    }
  }

  ghost function EndFrom(value: Text, at: nat, j: nat): (to: nat)
    requires From(value, at) <= j <= |value|
    ensures j <= to <= |value|
    ensures to < |value| ==> Stops(value, at, to)
    ensures forall k :: j <= k < to ==> !Stops(value, at, k)
    decreases |value| - j
  {
    if j == |value| || Stops(value, at, j) then j else EndFrom(value, at, j + 1)
  }

  ghost function End(value: Text, at: nat): (to: nat)
    requires at <= |value|
    ensures IsEnd(value, at, to)
  {
    EndFrom(value, at, From(value, at))
  }

  lemma EndUnique(value: Text, at: nat, to: nat)
    requires at <= |value| && IsEnd(value, at, to)
    ensures to == End(value, at)
  {
  }

  /** Where reading goes on: after the closing quote if there is one. */
  ghost function After(value: Text, at: nat): (cursor: nat)
    requires at <= |value|
    ensures End(value, at) <= cursor <= |value|
  {
    if Quoted(value, at) && End(value, at) < |value| then End(value, at) + 1 else End(value, at)
  }

  // ---- Which values are masked ------------------------------------------------------

  function Key(value: Text, m: Match): Text
    requires InBounds(value, m)
  {
    value[m.keyStart..m.keyEnd]
  }

  /** A match is free when it does not start inside an earlier masked value. */
  ghost predicate Free(value: Text, matches: seq<Match>, taken: seq<bool>, i: nat)
    requires AllInBounds(value, matches) && i <= |taken| <= |matches| && i < |matches|
  {
    forall j :: 0 <= j < i && taken[j] ==> After(value, matches[j].end) <= matches[i].start
  }

  /** Of the matches decided so far, those taken are the free ones with a sensitive key. */
  ghost predicate Greedy(rules: Rules, value: Text, matches: seq<Match>, taken: seq<bool>)
    requires AllInBounds(value, matches)
  {
    |taken| <= |matches| && forall i :: 0 <= i < |taken| ==> Decided(rules, value, matches, taken, i)
  }

  ghost predicate Decided(rules: Rules, value: Text, matches: seq<Match>, taken: seq<bool>, i: nat)
    requires AllInBounds(value, matches) && i < |taken| <= |matches|
  {
    taken[i] <==> (rules.sensitive(Key(value, matches[i])) && Free(value, matches, taken, i))
  }

  ghost function EditOf(rules: Rules, value: Text, m: Match): Edit
    requires InBounds(value, m)
  {
    var from, to := From(value, m.end), End(value, m.end);
    Edit(from, to, MaskedFor(rules, Key(value, m), value[from..to]))
  }

  ghost function Edits(rules: Rules, value: Text, matches: seq<Match>, taken: seq<bool>): seq<Edit>
    requires |taken| <= |matches| && AllInBounds(value, matches)
    decreases |taken|
  {
    if taken == [] then []
    else
      var last := |taken| - 1;
      Edits(rules, value, matches, taken[..last])
        + (if taken[last] then [EditOf(rules, value, matches[last])] else [])
  }

  /** Where reading goes on after the last value taken. */
  ghost function Cursor(value: Text, matches: seq<Match>, taken: seq<bool>): (cursor: nat)
    requires |taken| <= |matches| && AllInBounds(value, matches)
    ensures cursor <= |value|
    decreases |taken|
  {
    if taken == [] then 0
    else
      var last := |taken| - 1;
      if taken[last] then After(value, matches[last].end) else Cursor(value, matches, taken[..last])
  }

  // ---- The edited text --------------------------------------------------------------

  predicate Disjoint(edits: seq<Edit>, upto: nat) {
    && (forall i :: 0 <= i < |edits| ==> edits[i].from <= edits[i].to <= upto)
    && (forall i, j :: 0 <= i < j < |edits| ==> edits[i].to <= edits[j].from)
  }

  /** The input up to a position with the edits made. */
  ghost function Spliced(value: Text, edits: seq<Edit>, upto: nat): Text
    requires upto <= |value| && Disjoint(edits, upto)
  {
    if edits == [] then value[..upto]
    else
      var last := edits[|edits| - 1];
      Spliced(value, edits[..|edits| - 1], last.from) + last.text + value[last.to..upto]
  }

  lemma SplicedExtend(value: Text, edits: seq<Edit>, a: nat, b: nat)
    requires a <= b <= |value| && Disjoint(edits, a)
    ensures Disjoint(edits, b)
    ensures Spliced(value, edits, b) == Spliced(value, edits, a) + value[a..b]
  {
    if edits == [] {
      SliceSplit(value, 0, a, b);
    } else {
      var last := edits[|edits| - 1];
      var before := Spliced(value, edits[..|edits| - 1], last.from);
      SliceSplit(value, last.to, a, b);
      Assoc(before + last.text, value[last.to..a], value[a..b]);
    }
  }

  lemma SplicedAdd(value: Text, edits: seq<Edit>, cursor: nat, e: Edit, next: nat)
    requires Disjoint(edits, cursor) && cursor <= e.from <= e.to <= next <= |value|
    ensures Disjoint(edits + [e], next)
    ensures Spliced(value, edits + [e], next)
         == Spliced(value, edits, cursor) + (value[cursor..e.from] + e.text + value[e.to..next])
  {
    SplicedExtend(value, edits, cursor, e.from);
    assert (edits + [e])[..|edits|] == edits;
    Regroup(Spliced(value, edits, cursor), value[cursor..e.from], e.text, value[e.to..next]);
  }

  lemma GreedyInit(rules: Rules, value: Text, matches: seq<Match>, taken: seq<bool>)
    requires AllInBounds(value, matches) && Greedy(rules, value, matches, taken) && taken != []
    ensures Greedy(rules, value, matches, taken[..|taken| - 1])
  {
    var init, last := taken[..|taken| - 1], taken[|taken| - 1];
    assert taken == init + [last];
    forall i | 0 <= i < |init|
      ensures Decided(rules, value, matches, init, i)
    {
      assert Decided(rules, value, matches, taken, i);
      FreeExtends(value, matches, init, last, i);
    }
  }

  /** The cursor stands where the furthest masked value ends. */
  lemma {:induction false} CursorIsFurthest(rules: Rules, value: Text, matches: seq<Match>, taken: seq<bool>, at: nat)
    requires AllInBounds(value, matches) && Greedy(rules, value, matches, taken)
    ensures Cursor(value, matches, taken) <= at
        <==> forall j :: 0 <= j < |taken| && taken[j] ==> After(value, matches[j].end) <= at
    decreases |taken|
  {
    if taken != [] {
      var last := |taken| - 1;
      GreedyInit(rules, value, matches, taken);
      assert Decided(rules, value, matches, taken, last);
      CursorIsFurthest(rules, value, matches, taken[..last], at);
    }
  }

  lemma GreedyStep(rules: Rules, value: Text, matches: seq<Match>, taken: seq<bool>, take: bool)
    requires AllInBounds(value, matches) && |taken| < |matches| && Greedy(rules, value, matches, taken)
    requires take <==> (rules.sensitive(Key(value, matches[|taken|])) && Cursor(value, matches, taken) <= matches[|taken|].start)
    ensures Greedy(rules, value, matches, taken + [take])
  {
    forall i | 0 <= i <= |taken|
      ensures Decided(rules, value, matches, taken + [take], i)
    {
      FreeExtends(value, matches, taken, take, i);
      if i < |taken| {
        assert Decided(rules, value, matches, taken, i);
      } else {
        CursorIsFurthest(rules, value, matches, taken, matches[i].start);
      }
    }
  }

  lemma FreeExtends(value: Text, matches: seq<Match>, taken: seq<bool>, take: bool, i: nat)
    requires AllInBounds(value, matches) && i <= |taken| < |matches|
    ensures Free(value, matches, taken + [take], i) <==> Free(value, matches, taken, i)
  {
    assert forall j :: 0 <= j < i ==> (taken + [take])[j] == taken[j];
  }

  lemma StepParts(rules: Rules, value: Text, matches: seq<Match>, taken: seq<bool>, take: bool)
    requires AllInBounds(value, matches) && |taken| < |matches|
    ensures Edits(rules, value, matches, taken + [take])
         == Edits(rules, value, matches, taken) + (if take then [EditOf(rules, value, matches[|taken|])] else [])
    ensures Cursor(value, matches, taken + [take])
         == if take then After(value, matches[|taken|].end) else Cursor(value, matches, taken)
  {
    assert (taken + [take])[..|taken|] == taken;
  }

  // ---- The masker -------------------------------------------------------------------

  predicate Takes(rules: Rules, value: Text, m: Match, cursor: nat)
    requires InBounds(value, m)
  {
    rules.sensitive(Key(value, m)) && cursor <= m.start
  }

  /** The decisions on the first `n` matches. */
  ghost function Taken(rules: Rules, value: Text, matches: seq<Match>, n: nat): (taken: seq<bool>)
    requires AllInBounds(value, matches) && n <= |matches|
    ensures |taken| == n
    decreases n
  {
    if n == 0 then []
    else
      var before := Taken(rules, value, matches, n - 1);
      before + [Takes(rules, value, matches[n - 1], Cursor(value, matches, before))]
  }

  lemma {:induction false} TakenGreedy(rules: Rules, value: Text, matches: seq<Match>, n: nat)
    requires AllInBounds(value, matches) && n <= |matches|
    ensures Greedy(rules, value, matches, Taken(rules, value, matches, n))
    decreases n
  {
    if n > 0 {
      var before := Taken(rules, value, matches, n - 1);
      TakenGreedy(rules, value, matches, n - 1);
      GreedyStep(rules, value, matches, before, Takes(rules, value, matches[n - 1], Cursor(value, matches, before)));
    }
  }

  /** The spans that are replaced are disjoint and lie before the cursor. */
  lemma {:induction false} EditsDisjoint(rules: Rules, value: Text, matches: seq<Match>, taken: seq<bool>)
    requires AllInBounds(value, matches) && Greedy(rules, value, matches, taken)
    ensures Disjoint(Edits(rules, value, matches, taken), Cursor(value, matches, taken))
    decreases |taken|
  {
    if taken != [] {
      var last := |taken| - 1;
      GreedyInit(rules, value, matches, taken);
      assert Decided(rules, value, matches, taken, last);
      EditsDisjoint(rules, value, matches, taken[..last]);
      CursorIsFurthest(rules, value, matches, taken[..last], matches[last].start);
      if taken[last] {
        DisjointAdd(Edits(rules, value, matches, taken[..last]), Cursor(value, matches, taken[..last]),
                    EditOf(rules, value, matches[last]), After(value, matches[last].end));
      }
    }
  }

  lemma DisjointAdd(edits: seq<Edit>, cursor: nat, e: Edit, next: nat)
    requires Disjoint(edits, cursor) && cursor <= e.from <= e.to <= next
    ensures Disjoint(edits + [e], next)
  {
  }

  /** The masked text: the input with the spans of the taken matches replaced. */
  ghost function Masked(rules: Rules, value: Text, matches: seq<Match>): Text
    requires AllInBounds(value, matches)
  {
    var taken := Taken(rules, value, matches, |matches|);
    TakenGreedy(rules, value, matches, |matches|);
    EditsDisjoint(rules, value, matches, taken);
    Spliced(value, Edits(rules, value, matches, taken), |value|)
  }

  /** What has been written when the first `n` matches have been read. */
  ghost predicate Written(rules: Rules, value: Text, matches: seq<Match>, n: nat, cursor: nat, masked: Text)
    requires AllInBounds(value, matches) && n <= |matches|
  {
    var edits := Edits(rules, value, matches, Taken(rules, value, matches, n));
    && cursor == Cursor(value, matches, Taken(rules, value, matches, n))
    && Disjoint(edits, cursor) && masked == Spliced(value, edits, cursor)
  }

  lemma SkipMatch(rules: Rules, value: Text, matches: seq<Match>, n: nat, cursor: nat, masked: Text)
    requires AllInBounds(value, matches) && n < |matches| && Written(rules, value, matches, n, cursor, masked)
    requires !Takes(rules, value, matches[n], cursor)
    ensures Written(rules, value, matches, n + 1, cursor, masked)
  {
    var taken := Taken(rules, value, matches, n);
    StepParts(rules, value, matches, taken, false);
    EmptyConcat(Edits(rules, value, matches, taken));
  }

  lemma TakeMatch(rules: Rules, value: Text, matches: seq<Match>, n: nat, cursor: nat, masked: Text)
    requires AllInBounds(value, matches) && n < |matches| && Written(rules, value, matches, n, cursor, masked)
    requires Takes(rules, value, matches[n], cursor)
    ensures var e, next := EditOf(rules, value, matches[n]), After(value, matches[n].end);
            Written(rules, value, matches, n + 1, next, masked + (value[cursor..e.from] + e.text + value[e.to..next]))
  {
    var taken := Taken(rules, value, matches, n);
    StepParts(rules, value, matches, taken, true);
    SplicedAdd(value, Edits(rules, value, matches, taken), cursor, EditOf(rules, value, matches[n]), After(value, matches[n].end));
  }

  /** One sensitive assignment: the text from the cursor to where reading goes on. */
  method MaskOne(rules: Rules, value: Text, m: Match, cursor: nat) returns (piece: Text, next: nat)
    requires InBounds(value, m) && cursor <= m.start
    ensures next == After(value, m.end)
    ensures var e := EditOf(rules, value, m); piece == value[cursor..e.from] + e.text + value[e.to..next]
  {
    piece := value[cursor..m.end];
    var from := m.end;
    var to;
    if from < |value| && Quote(value[from]) {
      from := from + 1;
      to := ScanQuoted(value, m.end);
    } else {
      to := ScanBare(value, m.end);
    }
    EndUnique(value, m.end, to);
    var mask := MaskedFor(rules, Key(value, m), value[from..to]);
    next := to;
    if from > m.end {
      piece := piece + [value[m.end]];
      assert piece == value[cursor..from];
    }
    piece := piece + mask;
    if from > m.end && to < |value| && value[to] == value[m.end] {
      piece := piece + [value[m.end]];
      next := to + 1;
      assert value[to..next] == [value[to]];
    } else {
      assert value[to..next] == [];
    }
  }

  method Mask(rules: Rules, value: Text, matches: seq<Match>) returns (masked: Text)
    requires AllInBounds(value, matches)
    ensures masked == Masked(rules, value, matches)
  {
    masked := [];
    var cursor: nat := 0;
    for i := 0 to |matches|
      invariant Written(rules, value, matches, i, cursor, masked)
    {
      var m := matches[i];
      if m.start < cursor || !rules.sensitive(Key(value, m)) {
        SkipMatch(rules, value, matches, i, cursor, masked);
        continue;
      }
      TakeMatch(rules, value, matches, i, cursor, masked);
      var piece, next := MaskOne(rules, value, m, cursor);
      masked := masked + piece;
      cursor := next;
    }
    SplicedExtend(value, Edits(rules, value, matches, Taken(rules, value, matches, |matches|)), cursor, |value|);
    masked := masked + value[cursor..];
  }

  // ---- What the masker promises ------------------------------------------------------

  /** Which matches are taken is determined by the input. */
  lemma {:induction false} GreedyUnique(rules: Rules, value: Text, matches: seq<Match>, a: seq<bool>, b: seq<bool>)
    requires AllInBounds(value, matches) && |a| == |b|
    requires Greedy(rules, value, matches, a) && Greedy(rules, value, matches, b)
    ensures a == b
    decreases |a|
  {
    if a != [] {
      var last := |a| - 1;
      GreedyInit(rules, value, matches, a);
      GreedyInit(rules, value, matches, b);
      GreedyUnique(rules, value, matches, a[..last], b[..last]);
      SameFree(value, matches, a, b, last);
      SameDecision(rules, value, matches, a, b, last);
      SnocEqual(a, b);
    }
  }

  lemma SameDecision(rules: Rules, value: Text, matches: seq<Match>, a: seq<bool>, b: seq<bool>, n: nat)
    requires AllInBounds(value, matches) && n < |a| == |b|
    requires Greedy(rules, value, matches, a) && Greedy(rules, value, matches, b)
    requires Free(value, matches, a, n) <==> Free(value, matches, b, n)
    ensures a[n] == b[n]
  {
    assert Decided(rules, value, matches, a, n) && Decided(rules, value, matches, b, n);
  }

  lemma SameFree(value: Text, matches: seq<Match>, a: seq<bool>, b: seq<bool>, n: nat)
    requires AllInBounds(value, matches) && n < |a| == |b| <= |matches| && a[..n] == b[..n]
    ensures Free(value, matches, a, n) <==> Free(value, matches, b, n)
  {
    assert forall j :: 0 <= j < n ==> a[j] == a[..n][j] && b[j] == b[..n][j];
  }

  /** By how much a list of edits lengthens the text. */
  ghost function Growth(edits: seq<Edit>): int {
    if edits == [] then 0
    else
      var last := edits[|edits| - 1];
      Growth(edits[..|edits| - 1]) + |last.text| - (last.to - last.from)
  }

  lemma {:induction false} SplicedLength(value: Text, edits: seq<Edit>, upto: nat)
    requires upto <= |value| && Disjoint(edits, upto)
    ensures |Spliced(value, edits, upto)| == upto + Growth(edits)
    decreases |edits|
  {
    if edits != [] {
      var last := edits[|edits| - 1];
      SplicedLength(value, edits[..|edits| - 1], last.from);
    }
  }

  /** A byte outside the masked values is copied, moved only by the masks before it. */
  lemma {:induction false} ByteKept(value: Text, edits: seq<Edit>, upto: nat, n: nat, p: nat)
    requires p < upto <= |value| && Disjoint(edits, upto) && n <= |edits|
    requires forall i :: 0 <= i < n ==> edits[i].to <= p
    requires forall i :: n <= i < |edits| ==> p < edits[i].from
    ensures 0 <= p + Growth(edits[..n]) < |Spliced(value, edits, upto)|
    ensures Spliced(value, edits, upto)[p + Growth(edits[..n])] == value[p]
    decreases |edits|
  {
    if n == |edits| {
      assert edits[..n] == edits;
      KeptAtEnd(value, edits, upto, p);
    } else {
      var init := edits[..|edits| - 1];
      assert init[..n] == edits[..n];
      ByteKept(value, init, edits[|edits| - 1].from, n, p);
      KeptBefore(value, edits, upto, p + Growth(edits[..n]));
    }
  }

  lemma KeptAtEnd(value: Text, edits: seq<Edit>, upto: nat, p: nat)
    requires p < upto <= |value| && Disjoint(edits, upto)
    requires forall i :: 0 <= i < |edits| ==> edits[i].to <= p
    ensures 0 <= p + Growth(edits) < |Spliced(value, edits, upto)|
    ensures Spliced(value, edits, upto)[p + Growth(edits)] == value[p]
  {
    if edits != [] {
      var init, last := edits[..|edits| - 1], edits[|edits| - 1];
      SplicedLength(value, init, last.from);
      InLast(Spliced(value, init, last.from), last.text, value, last.to, upto, p);
    }
  }

  lemma KeptBefore(value: Text, edits: seq<Edit>, upto: nat, q: nat)
    requires edits != [] && upto <= |value| && Disjoint(edits, upto)
    requires q < |Spliced(value, edits[..|edits| - 1], edits[|edits| - 1].from)|
    ensures q < |Spliced(value, edits, upto)|
    ensures Spliced(value, edits, upto)[q] == Spliced(value, edits[..|edits| - 1], edits[|edits| - 1].from)[q]
  {
  }

  lemma InLast(a: Text, b: Text, value: Text, from: nat, upto: nat, p: nat)
    requires from <= p < upto <= |value|
    ensures (a + b + value[from..upto])[|a| + |b| + p - from] == value[p]
  {
  }

  /** The mask of each value stands where the value was. */
  lemma {:induction false} MaskWritten(value: Text, edits: seq<Edit>, upto: nat, n: nat)
    requires upto <= |value| && Disjoint(edits, upto) && n < |edits|
    ensures var e, at := edits[n], edits[n].from + Growth(edits[..n]);
            0 <= at && at + |e.text| <= |Spliced(value, edits, upto)| && Spliced(value, edits, upto)[at..at + |e.text|] == e.text
    decreases |edits|
  {
    var init, last := edits[..|edits| - 1], edits[|edits| - 1];
    SplicedLength(value, init, last.from);
    if n < |edits| - 1 {
      assert init[..n] == edits[..n];
      MaskWritten(value, init, last.from, n);
      var at, end := edits[n].from + Growth(edits[..n]), edits[n].from + Growth(edits[..n]) + |edits[n].text|;
      SliceOfPrefix(Spliced(value, init, last.from), last.text, value[last.to..upto], at, end);
    } else {
      Middle(Spliced(value, init, last.from), last.text, value[last.to..upto]);
    }
  }

  lemma SliceOfPrefix(a: Text, b: Text, c: Text, i: nat, j: nat)
    requires i <= j <= |a|
    ensures (a + b + c)[i..j] == a[i..j]
  {
  }

  lemma Middle(a: Text, b: Text, c: Text)
    ensures (a + b + c)[|a|..|a| + |b|] == b
  {
  }

  /** Without a sensitive key the text is left alone. */
  lemma {:induction false} NothingSensitive(rules: Rules, value: Text, matches: seq<Match>, taken: seq<bool>)
    requires AllInBounds(value, matches) && Greedy(rules, value, matches, taken)
    requires forall i :: 0 <= i < |taken| ==> !rules.sensitive(Key(value, matches[i]))
    ensures Edits(rules, value, matches, taken) == []
    decreases |taken|
  {
    if taken != [] {
      GreedyInit(rules, value, matches, taken);
      assert Decided(rules, value, matches, taken, |taken| - 1);
      NothingSensitive(rules, value, matches, taken[..|taken| - 1]);
    }
  }
}
