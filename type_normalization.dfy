/** Normalisation of the account type the wallet service reports: the value may
    be missing, a number, or a label in English or Portuguese (`Shopkeeper` /
    `lojista` for a shopkeeper account, `User` / `usuário` for a user account).
    Shopkeeper is 0, user is 1. */
module TypeNormalization {
  import opened JsText

  /** `String(type).toLowerCase().trim()` for a string `type`: no longer than
      `type`, with no white space at either end and nothing left to fold. */
  function Canonical(s: string): (r: string)
    ensures |r| <= |s|
    ensures r != [] ==> !IsSpace(r[0]) && !IsSpace(r[|r| - 1])
    ensures Lower(r) == r
  {
    TrimLowerCommute(s);
    LowerIdempotent(Trim(s));
    Trim(Lower(s))
  }

  /** The canonical texts read as a shopkeeper account. `parseInt` reads
      none of them as anything but 0, so testing them first agrees with the
      fallback on "0". */
  predicate IsShopkeeperLabel(typeStr: string)
    ensures IsShopkeeperLabel(typeStr) ==> ParsePrefix(typeStr).None? || ParsePrefix(typeStr) == Some(0)
  {
    SingleDigitParse('0');
    typeStr == "shopkeeper" || typeStr == "lojista" || typeStr == "0"
  }

  /** The canonical texts read as a user account. `parseInt` reads none of
      them as anything but 1. */
  predicate IsUserLabel(typeStr: string)
    ensures IsUserLabel(typeStr) ==> ParsePrefix(typeStr).None? || ParsePrefix(typeStr) == Some(1)
  {
    SingleDigitParse('1');
    typeStr == "user" || typeStr == "usu\U{E1}rio" || typeStr == "1"
  }

  /** `convertTypeToNumber`: missing values default to a user account, numbers
      pass through unchanged, strings are case-folded and trimmed and then read
      by `ConvertTypeText`. Neither numbers nor parsed integers are clamped to
      {0, 1}. */
  function ConvertTypeToNumber(t: JsValue): (r: int)
    ensures t.Undefined? || t.Null? ==> r == 1
    ensures t.Num? ==> r == t.n
    ensures t.Str? ==> r == 0 || r == 1 || ParsePrefix(Canonical(t.s)) == Some(r)
  {
    match t
    case Undefined => 1
    case Null => 1
    case Num(n) => n
    case Str(s) =>
      // `String(type)` of a string is the string itself.
      var typeStr := Canonical(s);
      TrimStartOfTrim(Lower(s));
      assert ParseIntOfText(typeStr) == ParsePrefix(typeStr);
      ConvertTypeText(typeStr)
  }

  /** The part of `convertTypeToNumber` that reads the canonical text: the six
      labels, then `parseInt`, then the default 1. */
  function ConvertTypeText(typeStr: string): (r: int)
    ensures r == 0 || r == 1 || ParseIntOfText(typeStr) == Some(r)
  {
    if IsShopkeeperLabel(typeStr) then 0
    else if IsUserLabel(typeStr) then 1
    else
      match ParseIntOfText(typeStr)
      case Some(num) => num
      case None => 1
  }

  /** `isLojista`: the value denotes a shopkeeper account. A missing value
      never does, and a number does exactly when it is 0. */
  predicate IsLojista(t: JsValue)
    ensures IsLojista(t) ==> t.Num? || t.Str?
    ensures t.Num? ==> (IsLojista(t) <==> t.n == 0)
  {
    ConvertTypeToNumber(t) == 0
  }

  // ---------------------------------------------------------------------------
  // Facts about the labels

  /** How `parseInt` reads the six labels: the digit labels are their own
      value, the word labels are not numbers at all. */
  lemma LabelsParsed()
    ensures ParsePrefix("0") == Some(0) && ParsePrefix("1") == Some(1)
    ensures ParsePrefix("shopkeeper").None? && ParsePrefix("lojista").None?
    ensures ParsePrefix("user").None? && ParsePrefix("usu\U{E1}rio").None?
  {
    SingleDigitParse('0');
    SingleDigitParse('1');
  }

  /** No label has white space at either end. */
  lemma LabelsUnpadded(l: string)
    requires IsShopkeeperLabel(l) || IsUserLabel(l)
    ensures Trim(l) == l
  {
    TrimUnpadded(l);
  }

  /** No label is read both ways. */
  lemma LabelsDisjoint(l: string)
    requires IsUserLabel(l)
    ensures !IsShopkeeperLabel(l)
  {
    assert l[0] == 'u' || l[0] == '1';
  }

  // ---------------------------------------------------------------------------
  // Reading the canonical text

  /** Whenever the text starts with an integer, that integer is the result;
      this covers the labels "0" and "1" too. */
  lemma TextParsedPrefixWins(c: string)
    requires TrimStart(c) == c
    ensures ParsePrefix(c).Some? ==> ConvertTypeText(c) == ParsePrefix(c).value
  {
    if IsShopkeeperLabel(c) || IsUserLabel(c) {
      LabelsParsed();
      if IsUserLabel(c) {
        LabelsDisjoint(c);
      }
    }
  }

  /** A text that is not a shopkeeper word and that `parseInt` cannot read
      gives a user account. */
  lemma TextWithoutIntegerIsUser(c: string)
    requires TrimStart(c) == c
    requires ParsePrefix(c).None?
    requires c != "shopkeeper" && c != "lojista"
    ensures ConvertTypeText(c) == 1
  {
    if c == "0" {
      LabelsParsed();
    }
  }

  // ---------------------------------------------------------------------------
  // Properties of convertTypeToNumber

  /** Lower-casing leaves the white space around a string alone. */
  lemma PaddedLower(w1: string, u: string, w2: string)
    requires AllSpace(w1) && AllSpace(w2)
    ensures Lower(w1 + u + w2) == w1 + Lower(u) + w2
  {
    LowerAppend(w1 + u, w2);
    LowerAppend(w1, u);
    LowerKeepsNonLetters(w1);
    LowerKeepsNonLetters(w2);
  }

  /** A string is normalised through its canonical text alone. */
  lemma StringThroughCanonical(s: string)
    ensures ConvertTypeToNumber(Str(s)) == ConvertTypeText(Canonical(s))
  {
  }

  /** Two strings with the same canonical text normalise alike. */
  lemma SameCanonicalSameType(a: string, b: string)
    requires Canonical(a) == Canonical(b)
    ensures ConvertTypeToNumber(Str(a)) == ConvertTypeToNumber(Str(b))
  {
    StringThroughCanonical(a);
    StringThroughCanonical(b);
  }

  /** Case folding and padding do not change the canonical text. */
  lemma CanonicalIgnoresCaseAndPadding(w1: string, u: string, w2: string, s: string)
    requires AllSpace(w1) && AllSpace(w2)
    requires Lower(u) == Lower(s)
    ensures Canonical(w1 + u + w2) == Canonical(s)
  {
    PaddedLower(w1, u, w2);
    TrimIgnoresPadding(w1, Lower(s), w2);
  }

  /** Changing the case of a string or surrounding it with white space does not
      change how it is normalised. */
  lemma CaseAndPaddingInsensitive(w1: string, u: string, w2: string, s: string)
    requires AllSpace(w1) && AllSpace(w2)
    requires Lower(u) == Lower(s)
    ensures ConvertTypeToNumber(Str(w1 + u + w2)) == ConvertTypeToNumber(Str(s))
  {
    CanonicalIgnoresCaseAndPadding(w1, u, w2, s);
    SameCanonicalSameType(w1 + u + w2, s);
  }

  /** The labels, in any case and with any surrounding white space:
      "shopkeeper", "lojista" and "0" give 0; "user", "usuário" and "1" give 1. */
  lemma LabelsInAnyCase(w1: string, u: string, w2: string)
    requires AllSpace(w1) && AllSpace(w2)
    ensures IsShopkeeperLabel(Lower(u)) ==> ConvertTypeToNumber(Str(w1 + u + w2)) == 0
    ensures IsUserLabel(Lower(u)) ==> ConvertTypeToNumber(Str(w1 + u + w2)) == 1
  {
    var l := Lower(u);
    if IsShopkeeperLabel(l) || IsUserLabel(l) {
      PaddedLower(w1, u, w2);
      TrimIgnoresPadding(w1, l, w2);
      LabelsUnpadded(l);
      assert Canonical(w1 + u + w2) == l;
      if IsUserLabel(l) {
        LabelsDisjoint(l);
      }
    }
  }

  /** Whenever the canonical text starts with an integer, that integer is the
      result. */
  lemma ParsedPrefixWins(s: string)
    ensures ParsePrefix(Canonical(s)).Some? ==>
      ConvertTypeToNumber(Str(s)) == ParsePrefix(Canonical(s)).value
  {
    TrimStartOfTrim(Lower(s));
    TextParsedPrefixWins(Canonical(s));
  }

  /** A string whose canonical text does not start with an integer and is not a
      shopkeeper word normalises to a user account: "xyz" and "" give 1. */
  lemma NoIntegerMeansUser(s: string)
    requires !StartsWithInteger(Canonical(s))
    requires Canonical(s) != "shopkeeper" && Canonical(s) != "lojista"
    ensures ConvertTypeToNumber(Str(s)) == 1
  {
    TrimStartOfTrim(Lower(s));
    TextWithoutIntegerIsUser(Canonical(s));
  }

  /** A prefix of `d + l` at least as long as `d` is `d` followed by a prefix
      of `l`. */
  lemma PrefixOfConcat(c: string, d: string, l: string)
    requires |d| <= |c| <= |d| + |l| && c == (d + l)[..|c|]
    ensures c == d + l[..|c| - |d|]
  {
    forall i | 0 <= i < |c| ensures c[i] == (d + l[..|c| - |d|])[i] {
      if i >= |d| {
        assert c[i] == l[i - |d|];
      }
    }
  }

  /** Case folding and trimming keep the text of an integer and cut the rest
      down to a part that still does not start with a digit. */
  lemma CanonicalOfIntegerText(n: int, rest: string) returns (tail: string)
    requires rest == [] || !IsDigit(rest[0])
    ensures Canonical(IntToString(n) + rest) == IntToString(n) + tail
    ensures tail == [] || !IsDigit(tail[0])
  {
    var d := IntToString(n);
    var l := Lower(rest);
    assert Lower(d + rest) == d + l by {
      LowerOfIntegerTextAppend(n, rest);
    }
    var c := TrimEnd(d + l);
    assert TrimStart(d + l) == d + l && |c| >= |d| by {
      TrimKeepsIntegerText(n, l);
    }
    tail := l[..|c| - |d|];
    PrefixOfConcat(c, d, l);
    if tail != [] {
      assert tail[0] == LowerChar(rest[0]);
      LowerCharKeepsClass(rest[0]);
    }
  }

  /** A string that starts with an integer normalises to that integer,
      whatever non-digit text follows it: "2x" gives 2 and "-3" gives -3. */
  lemma IntegerPrefixKept(n: int, rest: string)
    requires rest == [] || !IsDigit(rest[0])
    ensures ConvertTypeToNumber(Str(IntToString(n) + rest)) == n
  {
    var tail := CanonicalOfIntegerText(n, rest);
    IntToStringRoundTrip(n, tail);
    ParsedPrefixWins(IntToString(n) + rest);
  }

  /** The result for a string lies outside {0, 1} exactly when the integer at
      the start of its canonical form does: out-of-range values only come from
      a parsed prefix, which is passed through unclamped. */
  lemma StringOutOfRangeOnlyFromPrefix(s: string)
    ensures ConvertTypeToNumber(Str(s)) !in {0, 1}
        <==> ParsePrefix(Canonical(s)).Some? && ParsePrefix(Canonical(s)).value !in {0, 1}
  {
    ParsedPrefixWins(s);
  }

  /** A string is a shopkeeper type exactly when its canonical text is a
      shopkeeper word or starts with the integer 0 (such as "0", "00" or "-0"). */
  lemma IsLojistaString(s: string)
    ensures IsLojista(Str(s)) <==>
      Canonical(s) == "shopkeeper" || Canonical(s) == "lojista" || ParsePrefix(Canonical(s)) == Some(0)
  {
    var c := Canonical(s);
    ParsedPrefixWins(s);
    if ParsePrefix(c).None? && c != "shopkeeper" && c != "lojista" {
      TrimStartOfTrim(Lower(s));
      TextWithoutIntegerIsUser(c);
    }
  }

  /** `isLojista` holds exactly for the number 0 and for strings that are a
      shopkeeper word or start with the integer 0. */
  lemma IsLojistaExactly(t: JsValue)
    ensures IsLojista(t) <==>
      t == Num(0) ||
      (t.Str? && (Canonical(t.s) == "shopkeeper" || Canonical(t.s) == "lojista" ||
                  ParsePrefix(Canonical(t.s)) == Some(0)))
  {
    if t.Str? {
      IsLojistaString(t.s);
    }
  }

  // The examples below take their text as parameters pinned by `requires`
  // rather than writing the literal inside the `ensures`: with a literal
  // argument the verifier evaluates `Lower` and `Trim` on it eagerly, which
  // costs far more than the general lemmas the proofs use.

  /** The case folding each example relies on. */
  lemma FoldsTo(u: string, l: string)
    requires || (u == "Shopkeeper" && l == "shopkeeper")
             || (u == "LOJISTA" && l == "lojista")
             || (u == "USU\U{C1}RIO" && l == "usu\U{E1}rio")
    ensures Lower(u) == l
  {
    LowerPointwise(u, l);
  }

  /** Example: "Shopkeeper" after a no-break space and before a CR LF is a
      shopkeeper account. */
  lemma ShopkeeperExample(w1: string, u: string, w2: string)
    requires w1 == "\U{A0}" && u == "Shopkeeper" && w2 == "\r\n"
    ensures ConvertTypeToNumber(Str(w1 + u + w2)) == 0
  {
    FoldsTo(u, "shopkeeper");
    assert AllSpace(w1) && AllSpace(w2) by {
      assert IsSpace(w1[0]) && IsSpace(w2[0]) && IsSpace(w2[1]);
    }
    LabelsInAnyCase(w1, u, w2);
  }

  /** Example: " LOJISTA\n" is a shopkeeper account. */
  lemma PaddedLojistaExample(w1: string, u: string, w2: string)
    requires w1 == " " && u == "LOJISTA" && w2 == "\n"
    ensures ConvertTypeToNumber(Str(w1 + u + w2)) == 0
  {
    FoldsTo(u, "lojista");
    assert AllSpace(w1) && AllSpace(w2) by {
      assert IsSpace(w1[0]) && IsSpace(w2[0]);
    }
    LabelsInAnyCase(w1, u, w2);
  }

  /** Example: "\tUSU\U{C1}RIO " (upper-case, accented, padded) is a user
      account. */
  lemma UsuarioExample(w1: string, u: string, w2: string)
    requires w1 == "\t" && u == "USU\U{C1}RIO" && w2 == " "
    ensures ConvertTypeToNumber(Str(w1 + u + w2)) == 1
  {
    FoldsTo(u, "usu\U{E1}rio");
    assert AllSpace(w1) && AllSpace(w2) by {
      assert IsSpace(w1[0]) && IsSpace(w2[0]);
    }
    LabelsInAnyCase(w1, u, w2);
  }

  /** Example: "2x" normalises to 2. */
  lemma TrailingTextExample(s: string)
    requires s == "2x"
    ensures ConvertTypeToNumber(Str(s)) == 2
  {
    assert IntToString(2) + "x" == s;
    IntegerPrefixKept(2, "x");
  }

  /** Example: "-3" normalises to -3. */
  lemma NegativeExample(s: string)
    requires s == "-3"
    ensures ConvertTypeToNumber(Str(s)) == -3
  {
    assert IntToString(-3) + [] == s;
    IntegerPrefixKept(-3, []);
  }

  /** Example: "xyz" is not a label and holds no integer, so it is a user
      account. */
  lemma UnknownTextExample(s: string)
    requires s == "xyz"
    ensures ConvertTypeToNumber(Str(s)) == 1
  {
    assert Lower(s) == s;
    TrimUnpadded(s);
    assert !IsDigit(s[0]) && s[0] != '-' && s[0] != '+';
    NoIntegerMeansUser(s);
  }
}
