// What the request log writes in place of a credential (common/request_log.go).
// The key classifiers, word splitting, trimming and the digest are parameters.

module LogCredentials {

  import opened Prelude
  import opened LogText

  datatype Rules = Rules(
    sensitive: Text -> bool,
    neverFingerprinted: Text -> bool,
    authorization: Text -> bool,
    words: Text -> seq<Text>,
    isBasic: Text -> bool,
    isBearer: Text -> bool,
    trim: Text -> Text,
    digest: Text -> Text)

  const MASKED := Ascii("***masked***")
  const FINGERPRINT := Ascii(" [fingerprint=sha256:")

  function MaskedCredential(rules: Rules, value: Text): Text {
    var trimmed := rules.trim(value);
    if trimmed == [] then MASKED else MASKED + FINGERPRINT + rules.digest(trimmed) + CLOSE
  }

  function MaskedFor(rules: Rules, key: Text, value: Text): Text {
    var words := rules.words(value);
    if rules.neverFingerprinted(key) then MASKED
    else if words != [] && rules.isBasic(words[0]) then MASKED
    else if rules.authorization(key) then
      if |words| != 2 || !rules.isBearer(words[0]) then MASKED
      else words[0] + [32] + MaskedCredential(rules, words[1])
    else MaskedCredential(rules, value)
  }

  /** Digests are hexadecimal and words hold no line break. */
  ghost predicate Regular(rules: Rules) {
    && (forall v :: OneLine(rules.digest(v)))
    && (forall v, i :: 0 <= i < |rules.words(v)| ==> OneLine(rules.words(v)[i]))
  }

  lemma MaskedIsOneLine(rules: Rules, key: Text, value: Text)
    requires Regular(rules)
    ensures OneLine(MaskedFor(rules, key, value))
  {
    var words := rules.words(value);
    CredentialIsOneLine(rules, value);
    if |words| == 2 {
      CredentialIsOneLine(rules, words[1]);
      assert OneLine(words[0]);
    }
  }

  lemma CredentialIsOneLine(rules: Rules, value: Text)
    requires Regular(rules)
    ensures OneLine(MaskedCredential(rules, value))
  {
    assert OneLine(rules.digest(rules.trim(value)));
  }

  /** What a credential leaves in its mask: its digest, or nothing when it is blank. */
  function Print(rules: Rules, value: Text): Option<Text> {
    if rules.trim(value) == [] then None else Some(rules.digest(rules.trim(value)))
  }

  /** Two credentials are masked alike exactly when they leave the same print. */
  lemma CredentialIff(rules: Rules, a: Text, b: Text)
    ensures MaskedCredential(rules, a) == MaskedCredential(rules, b) <==> Print(rules, a) == Print(rules, b)
  {
    var start := MASKED + FINGERPRINT;
    if rules.trim(a) != [] {
      DigestInside(start, rules.digest(rules.trim(a)));
    }
    if rules.trim(b) != [] {
      DigestInside(start, rules.digest(rules.trim(b)));
    }
    assert |FINGERPRINT| > 0;
  }

  lemma DigestInside(start: Text, digest: Text)
    ensures (start + digest + CLOSE)[|start|..|start| + |digest|] == digest
  {
  }

  /** A value under a sensitive key shows through its number of words, its first word and the prints of
      the value and its second word, and under a never-fingerprinted key not at all. */
  lemma MaskedHides(rules: Rules, key: Text, a: Text, b: Text)
    requires rules.neverFingerprinted(key)
      || (|rules.words(a)| == |rules.words(b)| && Print(rules, a) == Print(rules, b)
          && (rules.words(a) != [] ==> rules.words(a)[0] == rules.words(b)[0])
          && (|rules.words(a)| == 2 ==> Print(rules, rules.words(a)[1]) == Print(rules, rules.words(b)[1])))
    ensures MaskedFor(rules, key, a) == MaskedFor(rules, key, b)
  {
    CredentialIff(rules, a, b);
    if |rules.words(a)| == |rules.words(b)| == 2 {
      CredentialIff(rules, rules.words(a)[1], rules.words(b)[1]);
    }
  }

  /** Under an ordinary sensitive key two values, neither of the basic scheme, are masked alike exactly
      when they leave the same print. */
  lemma MaskedShowsIff(rules: Rules, key: Text, a: Text, b: Text)
    requires !rules.neverFingerprinted(key) && !rules.authorization(key)
    requires forall v :: v == a || v == b ==> rules.words(v) == [] || !rules.isBasic(rules.words(v)[0])
    ensures MaskedFor(rules, key, a) == MaskedFor(rules, key, b) <==> Print(rules, a) == Print(rules, b)
  {
    CredentialIff(rules, a, b);
  }

  /** A credential shows as its fingerprint and nothing else; a blank one as the mask alone. */
  lemma CredentialShown(rules: Rules, value: Text)
    ensures MaskedCredential(rules, value)
         == match Print(rules, value)
            case None => Ascii("***masked***")
            case Some(digest) => Ascii("***masked***") + Ascii(" [fingerprint=sha256:") + digest + Ascii("]")
  {
  }

  /** Nothing of a value shows under a never-fingerprinted key, of the basic scheme, or of an
      authorization that is not one bearer credential. */
  lemma NothingShown(rules: Rules, key: Text, value: Text)
    requires var words := rules.words(value);
             || rules.neverFingerprinted(key)
             || (words != [] && rules.isBasic(words[0]))
             || (rules.authorization(key) && (|words| != 2 || !rules.isBearer(words[0])))
    ensures MaskedFor(rules, key, value) == Ascii("***masked***")
  {
  }

  /** A bearer authorization shows its first word and the print of its second, and two of them with the
      same first word are masked alike exactly when the seconds leave the same print. */
  lemma BearerShowsIff(rules: Rules, key: Text, a: Text, b: Text)
    requires !rules.neverFingerprinted(key) && rules.authorization(key)
    requires forall v :: v == a || v == b ==>
      |rules.words(v)| == 2 && !rules.isBasic(rules.words(v)[0]) && rules.isBearer(rules.words(v)[0])
    requires rules.words(a)[0] == rules.words(b)[0]
    ensures rules.words(a)[0] + Ascii(" ") <= MaskedFor(rules, key, a)
    ensures MaskedFor(rules, key, a) == MaskedFor(rules, key, b)
       <==> Print(rules, rules.words(a)[1]) == Print(rules, rules.words(b)[1])
  {
    var start, x, y := rules.words(a)[0] + [32], MaskedCredential(rules, rules.words(a)[1]), MaskedCredential(rules, rules.words(b)[1]);
    CredentialIff(rules, rules.words(a)[1], rules.words(b)[1]);
    assert Ascii(" ") == [32];
    assert (start + x)[|start|..] == x && (start + y)[|start|..] == y;
  }
}
