/** control-center/contracts/src/ids.ts: the slug normal form and the identity of a client. */
module ClientSlugs {
  import opened Prelude

  // ---- Characters --------------------------------------------------------------------------------

  predicate Alnum(c: char) {
    'a' <= c <= 'z' || '0' <= c <= '9'
  }

  /** White space as `trim` removes it. */
  predicate Space(c: char) {
    c in {' ', '\t', '\n', '\r', '\U{000B}', '\U{000C}', '\U{00A0}', '\U{1680}', '\U{2028}', '\U{2029}', '\U{202F}',
          '\U{205F}', '\U{3000}', '\U{FEFF}'} || '\U{2000}' <= c <= '\U{200A}'
  }

  /** `toLowerCase`, exactly as far as slugs can tell: the Kelvin sign and the capital I with a dot are the only letters
      outside ASCII whose lower case holds an ASCII letter; every other one stays outside ASCII, as it does here. */
  function LowerChar(c: char): string {
    if 'A' <= c <= 'Z' then [(c as int - 'A' as int + 'a' as int) as char]
    else if c == '\U{212A}' then "k"
    else if c == '\U{0130}' then "i\U{0307}"
    else [c]
  }

  function LowerCase(s: string): string {
    if s == "" then "" else LowerCase(Init(s)) + LowerChar(Last(s))
  }

  /** The length of a string as JavaScript counts it, in UTF-16 units. */
  function Utf16Length(s: string): nat {
    if s == "" then 0 else Utf16Length(Init(s)) + if Last(s) as int > 0xFFFF then 2 else 1
  }

  function TrimRight(s: string): string {
    if s == "" || !Space(Last(s)) then s else TrimRight(Init(s))
  }

  function TrimLeft(s: string): string {
    if s == "" || !Space(s[0]) then s else TrimLeft(s[1..])
  }

  function Trim(s: string): string {
    TrimRight(TrimLeft(s))
  }

  // ---- Normalization -----------------------------------------------------------------------------

  /** `replace(/[^a-z0-9]+/g, "-")`: each maximal run of other characters becomes one dash. */
  function Dash(s: string): string {
    if s == "" then ""
    else
      var init := Dash(Init(s));
      if Alnum(Last(s)) then init + [Last(s)]
      else if init != "" && Last(init) == '-' then init
      else init + "-"
  }

  function StripRight(s: string): string {
    if s == "" || Last(s) != '-' then s else StripRight(Init(s))
  }

  function StripLeft(s: string): string {
    if s == "" || s[0] != '-' then s else StripLeft(s[1..])
  }

  /** `normalizeSlugCandidate`. */
  function Normalize(raw: string): string {
    StripRight(StripLeft(Dash(LowerCase(Trim(raw)))))
  }

  // ---- The slug grammar --------------------------------------------------------------------------

  predicate AllAlnum(s: string) {
    forall c <- s :: Alnum(c)
  }

  /** `^[a-z0-9]+(?:-[a-z0-9]+)*$`, read from the right: one run, or a slug, a dash and one more run. */
  predicate IsClientSlug(s: string)
    decreases |s|
  {
    && s != ""
    && (AllAlnum(s) || exists k :: 0 < k < |s| - 1 && s[k] == '-' && AllAlnum(s[k + 1..]) && IsClientSlug(s[..k]))
  }

  /** Dashes and alphanumerics only, with no two dashes in a row. */
  predicate SingleDashes(s: string) {
    && (forall c <- s :: Alnum(c) || c == '-')
    && (forall i :: 0 <= i < |s| - 1 ==> !(s[i] == '-' && s[i + 1] == '-'))
  }

  predicate DashFreeEnds(s: string) {
    s != "" && s[0] != '-' && Last(s) != '-'
  }

  lemma LastDash(s: string) returns (k: int)
    requires SingleDashes(s)
    ensures -1 <= k < |s| && AllAlnum(s[k + 1..]) && (k >= 0 ==> s[k] == '-')
  {
    k := |s| - 1;
    while k >= 0 && s[k] != '-'
      invariant -1 <= k < |s|
      invariant forall i :: k < i < |s| ==> Alnum(s[i])
    {
      assert s[k] in s;
      k := k - 1;
    }
  }

  lemma {:induction false} SlugIsDashed(s: string)
    requires IsClientSlug(s)
    ensures SingleDashes(s) && DashFreeEnds(s)
    decreases |s|
  {
    if AllAlnum(s) {
      assert forall i :: 0 <= i < |s| ==> s[i] in s;
    } else {
      var k :| 0 < k < |s| - 1 && s[k] == '-' && AllAlnum(s[k + 1..]) && IsClientSlug(s[..k]);
      SlugIsDashed(s[..k]);
      SlugParts(s, k);
    }
  }

  lemma {:induction false} DashedIsSlug(s: string)
    requires SingleDashes(s) && DashFreeEnds(s)
    ensures IsClientSlug(s)
    decreases |s|
  {
    var k := LastDash(s);
    if k == -1 {
      assert s[k + 1..] == s && AllAlnum(s);
    } else {
      assert s[k - 1] != '-';
      assert SingleDashes(s[..k]) by {
        assert forall c <- s[..k] :: c in s;
      }
      DashedIsSlug(s[..k]);
      assert 0 < k < |s| - 1 && s[k] == '-' && AllAlnum(s[k + 1..]) && IsClientSlug(s[..k]);
    }
  }

  /** The grammar in plain terms: alphanumerics and single dashes, none at either end. */
  lemma SlugIff(s: string)
    ensures IsClientSlug(s) <==> SingleDashes(s) && DashFreeEnds(s)
  {
    if IsClientSlug(s) {
      SlugIsDashed(s);
    }
    if SingleDashes(s) && DashFreeEnds(s) {
      DashedIsSlug(s);
    }
  }

  lemma SlugParts(s: string, k: int)
    requires 0 < k < |s| - 1 && s[k] == '-' && AllAlnum(s[k + 1..]) && SingleDashes(s[..k]) && DashFreeEnds(s[..k])
    ensures SingleDashes(s) && DashFreeEnds(s)
  {
    forall i | 0 <= i < |s|
      ensures Alnum(s[i]) || s[i] == '-'
      ensures i > k ==> Alnum(s[i])
    {
      if i < k {
        assert s[i] == s[..k][i];
      } else if i > k {
        assert s[i] == s[k + 1..][i - k - 1];
      }
    }
    forall i | 0 <= i < |s| - 1
      ensures !(s[i] == '-' && s[i + 1] == '-')
    {
      if i + 1 < k {
        assert s[i] == s[..k][i] && s[i + 1] == s[..k][i + 1];
      } else if i + 1 == k {
        assert s[i] == Last(s[..k]);
      }
    }
    assert s[0] == s[..k][0];
  }

  // ---- What normalization yields -----------------------------------------------------------------

  lemma {:induction false} DashSound(s: string)
    ensures SingleDashes(Dash(s))
  {
    if s != "" {
      DashSound(Init(s));
    }
  }

  lemma {:induction false} StripLeftSound(s: string)
    requires SingleDashes(s)
    ensures SingleDashes(StripLeft(s)) && (StripLeft(s) != "" ==> StripLeft(s)[0] != '-')
  {
    if s != "" && s[0] == '-' {
      StripLeftSound(s[1..]);
    }
  }

  lemma {:induction false} StripRightSound(s: string)
    requires SingleDashes(s) && (s != "" ==> s[0] != '-')
    ensures SingleDashes(StripRight(s)) && (StripRight(s) != "" ==> DashFreeEnds(StripRight(s)))
  {
    if s != "" && Last(s) == '-' {
      StripRightSound(Init(s));
    }
  }

  /** Every non-empty normalization is a slug, whatever came in. */
  lemma NormalizationIsSlug(raw: string)
    ensures Normalize(raw) != "" ==> IsClientSlug(Normalize(raw))
  {
    var dashed := Dash(LowerCase(Trim(raw)));
    DashSound(LowerCase(Trim(raw)));
    StripLeftSound(dashed);
    StripRightSound(StripLeft(dashed));
    SlugIff(Normalize(raw));
  }

  lemma {:induction false} LowerCaseKeeps(s: string)
    requires forall c <- s :: Alnum(c) || c == '-'
    ensures LowerCase(s) == s
  {
    if s != "" {
      assert Last(s) in s && LowerChar(Last(s)) == [Last(s)];
      LowerCaseKeeps(Init(s));
      assert s == Init(s) + [Last(s)];
    }
  }

  lemma {:induction false} DashKeeps(s: string)
    requires SingleDashes(s)
    ensures Dash(s) == s
  {
    if s != "" {
      assert Last(s) in s;
      DashKeeps(Init(s));
    }
  }

  lemma TrimKeeps(s: string)
    requires SingleDashes(s) && DashFreeEnds(s)
    ensures Trim(s) == s
  {
    assert s[0] in s && Last(s) in s;
  }

  /** A slug is its own normal form. */
  lemma SlugIsFixed(s: string)
    requires IsClientSlug(s)
    ensures Normalize(s) == s && LowerCase(Trim(s)) == s
  {
    SlugIff(s);
    TrimKeeps(s);
    LowerCaseKeeps(s);
    DashKeeps(s);
  }

  /** Normalizing twice is normalizing once. */
  lemma NormalizeIdempotent(raw: string)
    ensures Normalize(Normalize(raw)) == Normalize(raw)
  {
    NormalizationIsSlug(raw);
    if Normalize(raw) != "" {
      SlugIsFixed(Normalize(raw));
    }
  }

  // ---- What a raw name becomes -------------------------------------------------------------------

  /** The maximal runs of alphanumerics, in order. */
  function Words(s: string): seq<string> {
    if s == "" then []
    else
      var words := Words(Init(s));
      if !Alnum(Last(s)) then words
      else if Init(s) != "" && Alnum(Last(Init(s))) && words != [] then Init(words) + [Last(words) + [Last(s)]]
      else words + [[Last(s)]]
  }

  function Dashed(words: seq<string>): string {
    if words == [] then ""
    else if |words| == 1 then words[0]
    else Dashed(Init(words)) + "-" + Last(words)
  }

  ghost predicate AreWords(words: seq<string>) {
    forall w <- words :: w != "" && AllAlnum(w)
  }

  /** No other character and no dash at an end, unless the string has one there. */
  function Led(s: string): string {
    if s != "" && !Alnum(s[0]) then "-" else ""
  }

  function Trailed(s: string): string {
    if s != "" && Words(s) != [] && !Alnum(Last(s)) then "-" else ""
  }

  lemma DashedGrows(words: seq<string>, w: string)
    ensures Dashed(words + [w]) == if words == [] then w else Dashed(words) + "-" + w
  {
    assert words != [] ==> Init(words + [w]) == words && Last(words + [w]) == w;
  }

  lemma LastWordGrows(words: seq<string>, c: char)
    requires words != []
    ensures Dashed(Init(words) + [Last(words) + [c]]) == Dashed(words) + [c]
  {
    DashedGrows(Init(words), Last(words) + [c]);
    DashedGrows(Init(words), Last(words));
    assert words == Init(words) + [Last(words)];
  }

  lemma {:induction false} WordsAre(s: string)
    ensures AreWords(Words(s))
    ensures s != "" && Alnum(Last(s)) ==> Words(s) != []
  {
    if s != "" {
      var words := Words(Init(s));
      WordsAre(Init(s));
      if words != [] {
        WordsStay(Init(words), words, Last(words), Last(s));
      }
    }
  }

  /** Words stay words when the last one goes on by an alphanumeric. */
  lemma WordsStay(init: seq<string>, words: seq<string>, last: string, c: char)
    requires AreWords(words) && words == init + [last]
    ensures Alnum(c) ==> AreWords(init + [last + [c]])
  {
    assert last in words;
    forall w | w in init + [last + [c]]
      ensures Alnum(c) ==> w != "" && AllAlnum(w)
    {
      assert w in init ==> w in words;
    }
  }

  lemma {:induction false} DashedIsSlugLike(words: seq<string>)
    requires AreWords(words) && words != []
    ensures Dashed(words) != "" && Alnum(Dashed(words)[0]) && Alnum(Last(Dashed(words)))
  {
    assert words[0] in words && words[0][0] in words[0] && Last(words) in words;
    assert Last(Last(words)) in Last(words);
    if |words| > 1 {
      assert AreWords(Init(words));
      DashedIsSlugLike(Init(words));
    }
  }

  /** Dashing keeps the words, with one dash between any two and one for what stands before or after them. */
  lemma {:induction false} DashIs(s: string)
    ensures Dash(s) == Led(s) + Dashed(Words(s)) + Trailed(s)
  {
    if s != "" {
      var init, words := Init(s), Words(Init(s));
      DashIs(init);
      WordsAre(init);
      if words != [] {
        DashedIsSlugLike(words);
      }
      DashStep(s, init, Last(s));
    }
  }

  lemma DashStep(s: string, init: string, c: char)
    requires s == init + [c] && Dash(init) == Led(init) + Dashed(Words(init)) + Trailed(init)
    requires Words(init) != [] ==> Dashed(Words(init)) != "" && Alnum(Last(Dashed(Words(init))))
    requires init != "" && Alnum(Last(init)) ==> Words(init) != []
    ensures Dash(s) == Led(s) + Dashed(Words(s)) + Trailed(s)
  {
    if init == "" {
      OneCharacter(s, c);
    } else if !Alnum(c) {
      NoWordStep(s, init, c);
    } else if Alnum(Last(init)) {
      WordGoesOn(s, init, c);
    } else {
      WordBegins(s, init, c);
    }
  }

  lemma OneCharacter(s: string, c: char)
    requires s == [c]
    ensures Dash(s) == Led(s) + Dashed(Words(s)) + Trailed(s)
  {
    assert Init(s) == "" && Dash("") == "" && Words("") == [];
    if Alnum(c) {
      assert Words(s) == [[c]];
    } else {
      assert Words(s) == [];
    }
  }

  lemma WordGoesOn(s: string, init: string, c: char)
    requires init != "" && s == init + [c] && Alnum(c) && Alnum(Last(init)) && Words(init) != []
    requires Dash(init) == Led(init) + Dashed(Words(init)) + Trailed(init)
    ensures Dash(s) == Led(s) + Dashed(Words(s)) + Trailed(s)
  {
    assert Init(s) == init && Last(s) == c && Led(s) == Led(init) && Trailed(s) == "" && Trailed(init) == "";
    LastWordGrows(Words(init), c);
  }

  lemma WordBegins(s: string, init: string, c: char)
    requires init != "" && s == init + [c] && Alnum(c) && !Alnum(Last(init))
    requires Dash(init) == Led(init) + Dashed(Words(init)) + Trailed(init)
    ensures Dash(s) == Led(s) + Dashed(Words(s)) + Trailed(s)
  {
    assert Init(s) == init && Last(s) == c && Led(s) == Led(init) && Trailed(s) == "";
    var led, words := Led(init), Words(init);
    assert Words(s) == words + [[c]] && Dash(s) == Dash(init) + [c];
    DashedGrows(words, [c]);
    SameConcat(led, Dashed(words), Trailed(init), c);
  }

  lemma SameConcat(led: string, dashed: string, dash: string, c: char)
    ensures led + dashed + dash + [c] == led + (dashed + dash + [c]) + ""
  {
  }

  lemma NoWordStep(s: string, init: string, c: char)
    requires init != "" && s == init + [c] && !Alnum(c)
    requires Dash(init) == Led(init) + Dashed(Words(init)) + Trailed(init)
    requires Words(init) != [] ==> Dashed(Words(init)) != "" && Alnum(Last(Dashed(Words(init))))
    requires Alnum(Last(init)) ==> Words(init) != []
    ensures Dash(s) == Led(s) + Dashed(Words(s)) + Trailed(s)
  {
    assert Init(s) == init && Last(s) == c && Words(s) == Words(init) && Led(s) == Led(init);
  }

  lemma StripLeftDrops(s: string)
    requires s == "" || s[0] != '-'
    ensures StripLeft(s) == s && StripLeft("-" + s) == s
  {
    assert ("-" + s)[1..] == s;
  }

  lemma StripRightDrops(s: string)
    requires s == "" || Last(s) != '-'
    ensures StripRight(s) == s && StripRight(s + "-") == s
  {
    assert Init(s + "-") == s;
  }

  /** Stripping leaves the words alone. */
  lemma StripIs(s: string)
    ensures StripRight(StripLeft(Dash(s))) == Dashed(Words(s))
  {
    var middle := Dashed(Words(s));
    DashIs(s);
    WordsAre(s);
    if Words(s) == [] {
      assert Led(s) + "" + "" == Led(s);
      StripLeftDrops("");
    } else {
      DashedIsSlugLike(Words(s));
      StripLeftDrops(middle + Trailed(s));
      assert Led(s) + middle + Trailed(s) == Led(s) + (middle + Trailed(s));
      StripRightDrops(middle);
    }
  }

  /** A character that is no alphanumeric may stand before or after: the words are the same. */
  lemma {:induction false} WordsAfter(c: char, s: string)
    requires !Alnum(c)
    ensures Words([c] + s) == Words(s)
  {
    var t := [c] + s;
    if s == "" {
      assert Init(t) == "" && Last(t) == c;
    } else {
      assert Init(t) == [c] + Init(s) && Last(t) == Last(s);
      WordsAfter(c, Init(s));
      assert Init(s) == "" ==> Words(Init(s)) == [];
    }
  }

  lemma LowerCaseGrows(s: string, c: char)
    ensures LowerCase(s + [c]) == LowerCase(s) + LowerChar(c)
  {
    assert Init(s + [c]) == s && Last(s + [c]) == c;
  }

  lemma Reassociate(a: string, b: string, c: string)
    ensures a + b + c == a + (b + c)
  {
  }

  lemma {:induction false} LowerCaseAppend(a: string, b: string)
    ensures LowerCase(a + b) == LowerCase(a) + LowerCase(b)
    decreases |b|
  {
    if b == "" {
      assert a + b == a && LowerCase(b) == "";
    } else {
      assert b == Init(b) + [Last(b)];
      LowerCaseAppend(a, Init(b));
      LowerCaseGoesOn(a, b, Init(b), Last(b));
    }
  }

  lemma LowerCaseGoesOn(a: string, b: string, init: string, c: char)
    requires b == init + [c] && LowerCase(a + init) == LowerCase(a) + LowerCase(init)
    ensures LowerCase(a + b) == LowerCase(a) + LowerCase(b)
  {
    LowerCaseGrows(a + init, c);
    LowerCaseGrows(init, c);
    Reassociate(a, init, [c]);
    Reassociate(LowerCase(a), LowerCase(init), LowerChar(c));
  }

  lemma SpaceIsNoWord(c: char)
    requires Space(c)
    ensures LowerChar(c) == [c] && !Alnum(c)
  {
  }

  lemma {:induction false} TrimLeftKeepsWords(s: string)
    ensures Words(LowerCase(TrimLeft(s))) == Words(LowerCase(s))
  {
    if s != "" && Space(s[0]) {
      var c, rest := s[0], s[1..];
      TrimLeftKeepsWords(rest);
      SpaceIsNoWord(c);
      LowerCaseGrows("", c);
      assert [c] == "" + [c];
      LowerCaseAppend([c], rest);
      assert [c] + rest == s;
      WordsAfter(c, LowerCase(rest));
    }
  }

  lemma {:induction false} TrimRightKeepsWords(s: string)
    ensures Words(LowerCase(TrimRight(s))) == Words(LowerCase(s))
  {
    if s != "" && Space(Last(s)) {
      TrimRightKeepsWords(Init(s));
      SpaceIsNoWord(Last(s));
      assert Init(LowerCase(Init(s)) + [Last(s)]) == LowerCase(Init(s));
    }
  }

  /** What a raw name becomes: its lower-cased words, joined by single dashes; nothing else of it matters. */
  lemma NormalizeIs(raw: string)
    ensures Normalize(raw) == Dashed(Words(LowerCase(raw)))
  {
    StripIs(LowerCase(Trim(raw)));
    TrimRightKeepsWords(TrimLeft(raw));
    TrimLeftKeepsWords(raw);
  }

  const CAPITALS := "ABCDEFGHIJKLMNOPQRSTUVWXYZ"
  const LETTERS := "abcdefghijklmnopqrstuvwxyz"

  const DIGITS := "0123456789"

  lemma LetterIff(c: char)
    ensures 'a' <= c <= 'z' <==> c in LETTERS
  {
    if 'a' <= c <= 'z' {
      assert LETTERS[c as int - 'a' as int] == c;
    }
  }

  lemma DigitIff(c: char)
    ensures '0' <= c <= '9' <==> c in DIGITS
  {
    if '0' <= c <= '9' {
      assert DIGITS[c as int - '0' as int] == c;
    }
  }

  /** The alphanumerics are the small letters and the digits. */
  lemma AlnumIff(c: char)
    ensures Alnum(c) <==> c in LETTERS || c in DIGITS
  {
    LetterIff(c);
    DigitIff(c);
  }

  lemma LettersMatch(i: nat)
    requires i < 26
    ensures LowerChar(CAPITALS[i]) == [LETTERS[i]] == LowerChar(LETTERS[i])
  {
  }

  lemma {:induction false} LowerCaseTwice(s: string)
    ensures LowerCase(LowerCase(s)) == LowerCase(s)
  {
    if s != "" {
      LowerCaseTwice(Init(s));
      LowerCaseAppend(LowerCase(Init(s)), LowerChar(Last(s)));
      LowerCharTwice(Last(s));
    }
  }

  lemma LowerCharTwice(c: char)
    ensures LowerCase(LowerChar(c)) == LowerChar(c)
  {
    var s := LowerChar(c);
    assert |s| == 1 ==> Init(s) == "" && LowerCase(s) == "" + LowerChar(s[0]);
    if |s| == 2 {
      assert Init(Init(s)) == "" && LowerCase(Init(s)) == "" + LowerChar(s[0]);
      assert LowerCase(s) == LowerCase(Init(s)) + LowerChar(s[1]);
    }
  }

  /** Names that differ in case only, or in what separates their words, have the same slug. */
  lemma SameWordsSameSlug(a: string, b: string)
    requires Words(LowerCase(a)) == Words(LowerCase(b))
    ensures Normalize(a) == Normalize(b) && ClientSlugFrom(Some(a)) == ClientSlugFrom(Some(b))
    ensures Normalize(LowerCase(a)) == Normalize(a)
  {
    NormalizeIs(a);
    NormalizeIs(b);
    NormalizeIs(LowerCase(a));
    LowerCaseTwice(a);
  }

  // ---- Identified slugs --------------------------------------------------------------------------

  const MIN_CLIENT_SLUG_LENGTH := 2

  const RESERVED_CLIENT_SLUGS: set<string> :=
    {"anonimo", "anonymous", "client", "cliente", "default", "desconhecido", "na", "n-a", "nao-identificado",
     "nao-informado", "no-name", "none", "null", "placeholder", "sem-identidade", "sem-nome", "tbd", "undefined",
     "unidentified", "unknown"}

  predicate IsReservedClientSlug(s: string) {
    LowerCase(Trim(s)) in RESERVED_CLIENT_SLUGS
  }

  predicate IsIdentifiedClientSlug(s: string) {
    IsClientSlug(s) && |s| >= MIN_CLIENT_SLUG_LENGTH && !IsReservedClientSlug(s)
  }

  /** `clientSlugFrom`; a value that is no string is None. */
  function ClientSlugFrom(raw: Option<string>): Option<string> {
    if raw.None? then None
    else if IsIdentifiedClientSlug(Normalize(raw.value)) then Some(Normalize(raw.value))
    else None
  }

  /** A string is an identified slug exactly when it is its own derived slug; every derived slug is one. */
  lemma IdentifiedIff(s: string)
    ensures IsIdentifiedClientSlug(s) <==> ClientSlugFrom(Some(s)) == Some(s)
    ensures var slug := ClientSlugFrom(Some(s)); slug.Some? ==> ClientSlugFrom(slug) == slug
  {
    if IsClientSlug(s) {
      SlugIsFixed(s);
    }
    NormalizeIdempotent(s);
  }

  // ---- Client identity ---------------------------------------------------------------------------

  /** A source record; a field that holds no string is None. */
  type SourceRow = map<string, Option<string>>

  datatype Basis = ClientKey | AccountKey | OrganizationKey | CompanyName

  datatype Reason = MissingClientKey | ReservedPlaceholderSlug | UnusableClientKey | MissingDisplayName
          | PlaceholderDisplayName

  datatype Identity = Identity(slug: Option<string>, displayName: Option<string>, basis: Option<Basis>,
    reasons: seq<Reason>)

  /** `fieldString`: a trimmed non-blank string, or nothing. */
  function FieldString(row: SourceRow, field: string): Option<string> {
    if field in row && row[field].Some? && Trim(row[field].value) != "" then Some(Trim(row[field].value)) else None
  }

  predicate IsPlaceholderName(value: string) {
    Utf16Length(Trim(value)) < MIN_CLIENT_SLUG_LENGTH || IsReservedClientSlug(Normalize(Trim(value)))
  }

  /** The first field, in the order given, that holds an acceptable value. */
  ghost predicate IsFirst(row: SourceRow, fields: seq<string>, names: bool, found: Option<string>, at: int) {
    if found.Some? then
      && 0 <= at < |fields| && FieldString(row, fields[at]) == found && Acceptable(row, fields[at], names)
      && forall i :: 0 <= i < at ==> !Acceptable(row, fields[i], names)
    else forall i :: 0 <= i < |fields| ==> !Acceptable(row, fields[i], names)
  }

  /** Keys need only be present; names must not be placeholders. */
  predicate Acceptable(row: SourceRow, field: string, names: bool) {
    FieldString(row, field).Some? && !(names && IsPlaceholderName(FieldString(row, field).value))
  }

  method FirstField(row: SourceRow, fields: seq<string>, names: bool) returns (found: Option<string>, at: int)
    ensures IsFirst(row, fields, names, found, at)
  {
    found, at := None, 0;
    while at < |fields|
      invariant 0 <= at <= |fields| && forall i :: 0 <= i < at ==> !Acceptable(row, fields[i], names)
    {
      var value := FieldString(row, fields[at]);
      if value.Some? && !(names && IsPlaceholderName(value.value)) {
        return value, at;
      }
      at := at + 1;
    }
  }

  /** The key a client is identified by, and what it rests on: the first key field, failing that the first real company
      name. */
  ghost predicate KeyIs(row: SourceRow, keys: seq<string>, bases: seq<Basis>, names: seq<string>, key: Option<string>,
          basis: Option<Basis>)
    requires |bases| == |keys|
  {
    exists byKey: Option<string>, i: int, name: Option<string>, j: int ::
      && IsFirst(row, keys, false, byKey, i) && IsFirst(row, names, true, name, j)
      && key == (if byKey.Some? then byKey else name)
      && basis == if byKey.Some? then Some(bases[i]) else if name.Some? then Some(CompanyName) else None
  }

  /** A slug is null for one reported reason: no key at all, a reserved word, or a key that normalizes to nothing
      usable. */
  predicate SlugExplained(key: Option<string>, id: Identity) {
    && id.slug == ClientSlugFrom(key)
    && (MissingClientKey in id.reasons <==> key.None?)
    && (ReservedPlaceholderSlug in id.reasons <==>
          key.Some? && id.slug.None? && IsReservedClientSlug(Normalize(key.value)))
    && (UnusableClientKey in id.reasons <==> key.Some? && id.slug.None? && !IsReservedClientSlug(Normalize(key.value)))
  }

  const CLIENT_KEY_FIELDS := ["client_id", "customer_id", "account_id", "organization_id", "org_id", "company_id"]

  /** `CLIENT_KEY_FIELD_BASIS`, in the order of the key fields. */
  const CLIENT_KEY_BASES := [ClientKey, ClientKey, AccountKey, OrganizationKey, OrganizationKey, OrganizationKey]

  const CLIENT_NAME_FIELDS := ["company", "company_name", "account_name", "organization", "organization_name"]

  /** The identity is the one that the lists of key fields (with their bases) and of name fields lead to. */
  ghost predicate Resolves(row: SourceRow, keys: seq<string>, bases: seq<Basis>, names: seq<string>, id: Identity)
    requires |bases| == |keys|
  {
    && (exists key, basis :: KeyIs(row, keys, bases, names, key, basis) && SlugExplained(key, id)
                             && id.basis == if id.slug.Some? then basis else None)
    && (exists j :: IsFirst(row, names, true, id.displayName, j))
    && (MissingDisplayName in id.reasons <==> NoNameAtAll(row, names))
    && (PlaceholderDisplayName in id.reasons <==> id.displayName.None? && !NoNameAtAll(row, names))
  }

  /** The slug of a key, and the reason when there is none. */
  method JudgeKey(key: Option<string>) returns (slug: Option<string>, reasons: seq<Reason>)
    ensures slug == ClientSlugFrom(key)
    ensures reasons == if key.None? then [MissingClientKey]
                       else if slug.Some? then []
                       else if IsReservedClientSlug(Normalize(key.value)) then [ReservedPlaceholderSlug]
                       else [UnusableClientKey]
  {
    reasons := [];
    if key.None? {
      reasons := reasons + [MissingClientKey];
    }
    slug := ClientSlugFrom(key);
    if key.Some? && slug.None? {
      reasons := reasons
          + [if IsReservedClientSlug(Normalize(key.value)) then ReservedPlaceholderSlug else UnusableClientKey];
    }
  }

  /** An account key if there is one, otherwise the company name. */
  method ChooseKey(row: SourceRow, keys: seq<string>, bases: seq<Basis>, ghost names: seq<string>, name: Option<string>,
          ghost nameAt: int)
    returns (rawKey: Option<string>, basis: Option<Basis>)
    requires |bases| == |keys| && IsFirst(row, names, true, name, nameAt)
    ensures KeyIs(row, keys, bases, names, rawKey, basis)
  {
    var at;
    rawKey, at := FirstField(row, keys, false);
    basis := if rawKey.Some? then Some(bases[at]) else None;
    ghost var byKey := rawKey;
    if rawKey.None? && name.Some? {
      rawKey, basis := name, Some(CompanyName);
    }
    assert IsFirst(row, keys, false, byKey, at) && IsFirst(row, names, true, name, nameAt);
  }

  ghost predicate NoNameAtAll(row: SourceRow, names: seq<string>) {
    forall i :: 0 <= i < |names| ==> FieldString(row, names[i]).None?
  }

  /** Why there is no display name: no name field is filled, or all that are hold placeholders. */
  method JudgeName(row: SourceRow, names: seq<string>, name: Option<string>) returns (reasons: seq<Reason>)
    ensures reasons == if name.Some? then [] else if NoNameAtAll(row, names) then [MissingDisplayName]
            else [PlaceholderDisplayName]
  {
    reasons := [];
    if name.None? {
      var anyName, anyAt := FirstField(row, names, false);
      if anyName.None? {
        NoneAcceptable(row, names, anyName, anyAt);
      }
      reasons := reasons + [if anyName.None? then MissingDisplayName else PlaceholderDisplayName];
    }
  }

  method ResolveByFields(row: SourceRow, keys: seq<string>, bases: seq<Basis>, names: seq<string>)
    returns (id: Identity)
    requires |bases| == |keys|
    ensures Resolves(row, keys, bases, names, id)
  {
    var name, nameAt := FirstField(row, names, true);
    var rawKey, basis := ChooseKey(row, keys, bases, names, name, nameAt);
    var slug, aboutKey := JudgeKey(rawKey);
    var aboutName := JudgeName(row, names, name);
    id := Identity(slug, name, if slug.Some? then basis else None, aboutKey + aboutName);
    assert SlugExplained(rawKey, id);
    assert IsFirst(row, names, true, id.displayName, nameAt);
  }

  lemma NoneAcceptable(row: SourceRow, names: seq<string>, found: Option<string>, at: int)
    requires IsFirst(row, names, false, found, at) && found.None?
    ensures forall i :: 0 <= i < |names| ==> FieldString(row, names[i]).None?
  {
    forall i | 0 <= i < |names|
      ensures FieldString(row, names[i]).None?
    {
      assert !Acceptable(row, names[i], false);
    }
  }

  /** `resolveClientIdentity`: the slug is null exactly when one of the three reasons about the key is reported. */
  method ResolveClientIdentity(row: SourceRow) returns (id: Identity)
    ensures Resolves(row, CLIENT_KEY_FIELDS, CLIENT_KEY_BASES, CLIENT_NAME_FIELDS, id)
    ensures id.slug.None? <==>
            MissingClientKey in id.reasons || ReservedPlaceholderSlug in id.reasons || UnusableClientKey in id.reasons
    ensures id.slug.Some? ==> IsIdentifiedClientSlug(id.slug.value)
  {
    id := ResolveByFields(row, CLIENT_KEY_FIELDS, CLIENT_KEY_BASES, CLIENT_NAME_FIELDS);
    ResolvedSlug(row, CLIENT_KEY_FIELDS, CLIENT_KEY_BASES, CLIENT_NAME_FIELDS, id);
  }

  /** The key of a row, by the fields themselves: the client's, the account's, the organization's, and only then the
      company name. */
  function KeyOf(row: SourceRow): Option<(string, Basis)> {
    var at := (field: string) => FieldString(row, field);
    if at("client_id").Some? then Some((at("client_id").value, ClientKey))
    else if at("customer_id").Some? then Some((at("customer_id").value, ClientKey))
    else if at("account_id").Some? then Some((at("account_id").value, AccountKey))
    else if at("organization_id").Some? then Some((at("organization_id").value, OrganizationKey))
    else if at("org_id").Some? then Some((at("org_id").value, OrganizationKey))
    else if at("company_id").Some? then Some((at("company_id").value, OrganizationKey))
    else if NameOf(row).Some? then Some((NameOf(row).value, CompanyName))
    else None
  }

  /** A name that is filled in and no placeholder. */
  function RealName(row: SourceRow, field: string): Option<string> {
    var name := FieldString(row, field);
    if name.Some? && IsPlaceholderName(name.value) then None else name
  }

  function NameOf(row: SourceRow): Option<string> {
    var at := (field: string) => RealName(row, field);
    if at("company").Some? then at("company")
    else if at("company_name").Some? then at("company_name")
    else if at("account_name").Some? then at("account_name")
    else if at("organization").Some? then at("organization")
    else at("organization_name")
  }

  lemma NameIs(row: SourceRow, name: Option<string>, j: int)
    requires IsFirst(row, CLIENT_NAME_FIELDS, true, name, j)
    ensures name == NameOf(row)
  {
    var fields := CLIENT_NAME_FIELDS;
    assert |fields| == 5 && fields[0] == "company" && fields[1] == "company_name" && fields[2] == "account_name";
    assert fields[3] == "organization" && fields[4] == "organization_name";
  }

  lemma KeyFieldIs(row: SourceRow, key: Option<string>, i: int)
    requires IsFirst(row, CLIENT_KEY_FIELDS, false, key, i)
    ensures key.Some? ==> 0 <= i < 6 && KeyOf(row) == Some((key.value, CLIENT_KEY_BASES[i]))
    ensures key.None? ==> KeyOf(row) == if NameOf(row).Some? then Some((NameOf(row).value, CompanyName)) else None
  {
    var fields := CLIENT_KEY_FIELDS;
    assert |fields| == 6 && fields[0] == "client_id" && fields[1] == "customer_id" && fields[2] == "account_id";
    assert fields[3] == "organization_id" && fields[4] == "org_id" && fields[5] == "company_id";
  }

  lemma KeyAndBasisAre(row: SourceRow, key: Option<string>, basis: Option<Basis>)
    requires KeyIs(row, CLIENT_KEY_FIELDS, CLIENT_KEY_BASES, CLIENT_NAME_FIELDS, key, basis)
    ensures KeyOf(row) == if key.Some? && basis.Some? then Some((key.value, basis.value)) else None
    ensures key.Some? <==> basis.Some?
  {
    var byKey: Option<string>, i: int, name: Option<string>, j: int :|
      && IsFirst(row, CLIENT_KEY_FIELDS, false, byKey, i) && IsFirst(row, CLIENT_NAME_FIELDS, true, name, j)
      && key == (if byKey.Some? then byKey else name)
      && basis == if byKey.Some? then Some(CLIENT_KEY_BASES[i]) else if name.Some? then Some(CompanyName) else None;
    NameIs(row, name, j);
    KeyFieldIs(row, byKey, i);
  }

  lemma SlugNeedsKey(key: Option<string>)
    ensures ClientSlugFrom(key).Some? ==> key.Some?
  {
  }

  /** The identity by the fields themselves: the slug and its basis come from the key, the display name from the
      names. */
  lemma IdentityIs(row: SourceRow, id: Identity)
    requires Resolves(row, CLIENT_KEY_FIELDS, CLIENT_KEY_BASES, CLIENT_NAME_FIELDS, id)
    ensures id.displayName == NameOf(row)
    ensures id.slug == if KeyOf(row).None? then None else ClientSlugFrom(Some(KeyOf(row).value.0))
    ensures id.basis == if id.slug.None? || KeyOf(row).None? then None else Some(KeyOf(row).value.1)
  {
    var key, basis :| KeyIs(row, CLIENT_KEY_FIELDS, CLIENT_KEY_BASES, CLIENT_NAME_FIELDS, key, basis)
                      && SlugExplained(key, id) && id.basis == if id.slug.Some? then basis else None;
    KeyAndBasisAre(row, key, basis);
    SlugNeedsKey(key);
    var at :| IsFirst(row, CLIENT_NAME_FIELDS, true, id.displayName, at);
    NameIs(row, id.displayName, at);
  }

  lemma ResolvedSlug(row: SourceRow, keys: seq<string>, bases: seq<Basis>, names: seq<string>, id: Identity)
    requires |bases| == |keys| && Resolves(row, keys, bases, names, id)
    ensures id.slug.None? <==>
            MissingClientKey in id.reasons || ReservedPlaceholderSlug in id.reasons || UnusableClientKey in id.reasons
    ensures id.slug.Some? ==> IsIdentifiedClientSlug(id.slug.value)
  {
    var key, basis :| KeyIs(row, keys, bases, names, key, basis) && SlugExplained(key, id);
  }
}
