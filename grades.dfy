// The sign-in tool's text helpers (SignInServer.js): the normalised form
// used to compare labels and search tokens, the grade-label normaliser and
// the full-name splitter.
module Grades {
  import opened Wrappers
  import opened Strings
  import opened Cells
  import opened TitleCase

  /** signinNorm_(v) on text: lower-cased and trimmed (diacritic
      stripping is not modelled). */
  function Norm(s: string): (r: string)
    ensures NoEdgeSpace(r)
  {
    var t := Trim(ToLower(s));
    t
  }

  lemma NormIdempotent(s: string)
    ensures Norm(Norm(s)) == Norm(s)
  {
    var t := Norm(s);
    TrimToLower(ToLower(s));
    ToLowerIdempotent(s);
    TrimIdempotent(ToLower(s));
  }

  // ------------------------------------------------------ grade labels

  const FreshmanWords: seq<string> := ["freshman", "freshmen", "9", "9th", "9th grade", "grade 9", "year 1"]
  const SophomoreWords: seq<string> := ["sophomore", "sophomores", "10", "10th", "10th grade", "grade 10", "year 2"]
  const JuniorWords: seq<string> := ["junior", "juniors", "11", "11th", "11th grade", "grade 11", "year 3"]
  const SeniorWords: seq<string> := ["senior", "seniors", "12", "12th", "12th grade", "grade 12", "year 4"]

  predicate IsNumeric(c: char) { IsDigit(c) || c == '.' }

  /** s.replace(/[^0-9.]/g, ''). */
  function KeepNumeric(s: string): (r: string)
    ensures forall i :: 0 <= i < |r| ==> IsNumeric(r[i])
  {
    if s == [] then []
    else if IsNumeric(s[0]) then [s[0]] + KeepNumeric(s[1..])
    else KeepNumeric(s[1..])
  }

  /** The label of a numeric grade, or None when the number is NaN or
      falls between the named grades (e.g. 10.5). */
  function NumericGrade(v: Option<real>): (r: Option<string>)
    ensures v.Some? && v.value <= 9.0 ==> r == Some("Freshman")
    ensures v.Some? && v.value >= 12.0 ==> r == Some("Senior")
    ensures v.None? ==> r.None?
  {
    match v
    case None => None
    case Some(n) =>
      if n <= 9.0 then Some("Freshman")
      else if n == 10.0 then Some("Sophomore")
      else if n == 11.0 then Some("Junior")
      else if n >= 12.0 then Some("Senior")
      else None
  }

  /** signinNormalizeGradeLabel_(raw) for the text String(raw || ''). */
  function NormalizeGrade(raw: string): (r: string)
    ensures Trim(raw) == "" ==> r == ""
    ensures Trim(raw) != "" ==> r != ""
  {
    var input := Trim(raw);
    if input == "" then ""
    else
      var lower := ToLower(input);
      if lower in FreshmanWords then "Freshman"
      else if lower in SophomoreWords then "Sophomore"
      else if lower in JuniorWords then "Junior"
      else if lower in SeniorWords then "Senior"
      else
        match NumericGrade(NumberText(KeepNumeric(input)))
        case Some(g) => g
        case None => CapitalizeWords(input)
  }

  /** The four labels the normaliser produces from recognised grades. */
  predicate IsGradeLabel(s: string) {
    s == "Freshman" || s == "Sophomore" || s == "Junior" || s == "Senior"
  }

  /** ToLower(w) is the given lower-case text. */
  lemma LowerIs(w: string, k: string)
    requires |w| == |k| && forall j :: 0 <= j < |w| ==> Lower(w[j]) == k[j]
    ensures ToLower(w) == k
  {
  }

  lemma FreshmanNormalizes()
    ensures NormalizeGrade("Freshman") == "Freshman"
  {
    TrimOfTrimmedWord("Freshman");
    LowerIs("Freshman", "freshman");
    assert "freshman" == FreshmanWords[0];
  }

  lemma SophomoreNormalizes()
    ensures NormalizeGrade("Sophomore") == "Sophomore"
  {
    TrimOfTrimmedWord("Sophomore");
    LowerIs("Sophomore", "sophomore");
    assert "sophomore" !in FreshmanWords;
    assert "sophomore" == SophomoreWords[0];
  }

  lemma JuniorNormalizes()
    ensures NormalizeGrade("Junior") == "Junior"
  {
    TrimOfTrimmedWord("Junior");
    LowerIs("Junior", "junior");
    assert "junior" !in FreshmanWords && "junior" !in SophomoreWords;
    assert "junior" == JuniorWords[0];
  }

  lemma SeniorNormalizes()
    ensures NormalizeGrade("Senior") == "Senior"
  {
    TrimOfTrimmedWord("Senior");
    LowerIs("Senior", "senior");
    assert "senior" !in FreshmanWords && "senior" !in SophomoreWords && "senior" !in JuniorWords;
    assert "senior" == SeniorWords[0];
  }

  lemma LabelsNormalize()
    ensures NormalizeGrade("Freshman") == "Freshman"
    ensures NormalizeGrade("Sophomore") == "Sophomore"
    ensures NormalizeGrade("Junior") == "Junior"
    ensures NormalizeGrade("Senior") == "Senior"
  {
    FreshmanNormalizes();
    SophomoreNormalizes();
    JuniorNormalizes();
    SeniorNormalizes();
  }

  lemma TrimOfTrimmedWord(w: string)
    requires w != [] && !IsSpace(w[0]) && !IsSpace(w[|w| - 1])
    ensures Trim(w) == w
  {
    TrimOfTrimmed(w);
  }

  /** A listed synonym, in any letter case and with surrounding white
      space, gives its label. */
  lemma {:induction false} SynonymGivesLabel(w: string, p: string, q: string)
    requires AllSpace(p) && AllSpace(q) && NoEdgeSpace(w) && w != ""
    ensures ToLower(w) in FreshmanWords ==> NormalizeGrade(p + w + q) == "Freshman"
    ensures ToLower(w) in SophomoreWords && ToLower(w) !in FreshmanWords ==> NormalizeGrade(p + w + q) == "Sophomore"
    ensures ToLower(w) in JuniorWords && ToLower(w) !in FreshmanWords + SophomoreWords ==> NormalizeGrade(p + w + q) == "Junior"
    ensures ToLower(w) in SeniorWords && ToLower(w) !in FreshmanWords + SophomoreWords + JuniorWords ==>
              NormalizeGrade(p + w + q) == "Senior"
  {
    TrimExact(p, w, q);
  }

  /** The synonym lists do not overlap, so each synonym has one label. */
  lemma SynonymsDisjoint()
    ensures forall w :: w in SophomoreWords ==> w !in FreshmanWords
    ensures forall w :: w in JuniorWords ==> w !in FreshmanWords + SophomoreWords
    ensures forall w :: w in SeniorWords ==> w !in FreshmanWords + SophomoreWords + JuniorWords
  {
  }

  /** Text with neither a digit nor a '.' strips to '', and Number('') is
      0: every such grade that is not a listed synonym (for instance 'N/A'
      or 'Unknown') is labelled Freshman. */
  lemma NoDigitsIsFreshman(raw: string)
    requires Trim(raw) != ""
    requires forall i :: 0 <= i < |Trim(raw)| ==> !IsNumeric(Trim(raw)[i])
    requires ToLower(Trim(raw)) !in FreshmanWords + SophomoreWords + JuniorWords + SeniorWords
    ensures NormalizeGrade(raw) == "Freshman"
  {
    KeepNumericNone(Trim(raw));
    assert NumberText([]) == Some(0.0) by {
      assert Trim([]) == [] by { TrimOfTrimmed([]); }
    }
  }

  lemma {:induction false} KeepNumericNone(s: string)
    requires forall i :: 0 <= i < |s| ==> !IsNumeric(s[i])
    ensures KeepNumeric(s) == []
  {
    if s != [] {
      KeepNumericNone(s[1..]);
    }
  }

  /** A grade that is no synonym and whose [0-9.] residue reads as a number
      strictly between 9 and 12 other than 10 and 11 comes back title-cased. */
  lemma BetweenGradesTitleCased(raw: string, v: real)
    requires Trim(raw) != ""
    requires ToLower(Trim(raw)) !in FreshmanWords + SophomoreWords + JuniorWords + SeniorWords
    requires NumberText(KeepNumeric(Trim(raw))) == Some(v)
    requires 9.0 < v < 12.0 && v != 10.0 && v != 11.0
    ensures NormalizeGrade(raw) == CapitalizeWords(Trim(raw))
  {
  }

  /** A fractional grade between the named ones, an integer part of 9, 10
      or 11 and a non-zero fraction, passes through unchanged: it is no
      synonym, its number is not one the labels cover, and title-casing
      leaves digits and '.' as they are. */
  lemma FractionPassesThrough(ip: string, fp: string)
    requires ip != [] && AllDigits(ip) && 9 <= DigitsValue(ip) <= 11
    requires AllDigits(fp) && DigitsValue(fp) > 0
    ensures NormalizeGrade(ip + "." + fp) == ip + "." + fp
  {
    var w := ip + "." + fp;
    FractionIsNumeric(ip, fp);
    TrimOfTrimmedWord(w);
    LowerIs(w, w);
    NotListed(w, |ip|);
    FractionNumberUnlabelled(ip, fp);
    CapitalizeDigits(w);
  }

  lemma FractionIsNumeric(ip: string, fp: string)
    requires AllDigits(ip) && AllDigits(fp)
    ensures forall i :: 0 <= i < |ip + "." + fp| ==> IsNumeric((ip + "." + fp)[i])
  {
  }

  /** The number of such a fraction is none the labels cover. */
  lemma FractionNumberUnlabelled(ip: string, fp: string)
    requires ip != [] && AllDigits(ip) && 9 <= DigitsValue(ip) <= 11
    requires AllDigits(fp) && DigitsValue(fp) > 0
    ensures NumericGrade(NumberText(KeepNumeric(ip + "." + fp))).None?
  {
    var w := ip + "." + fp;
    FractionIsNumeric(ip, fp);
    KeepNumericOfNumeric(w);
    NumberOfDecimal(ip, fp);
    var v := PointValue(ip, fp);
    assert NumberText(KeepNumeric(w)) == Some(v);
    DigitsValueBound(fp);
    FractionBetween(DigitsValue(ip), DigitsValue(fp), Pow10(|fp|));
    BetweenUnlabelled(DigitsValue(ip), v);
  }

  lemma BetweenUnlabelled(k: nat, x: real)
    requires 9 <= k <= 11 && k as real < x < k as real + 1.0
    ensures NumericGrade(Some(x)).None?
  {
  }

  /** k + f / p lies strictly between k and k + 1 for 0 < f < p. */
  lemma FractionBetween(k: nat, f: nat, p: nat)
    requires 0 < f < p
    ensures k as real < k as real + f as real / p as real < k as real + 1.0
  {
    assert 0.0 < f as real / p as real < 1.0;
  }

  /** No synonym holds a '.'. */
  lemma NotListed(w: string, k: nat)
    requires k < |w| && w[k] == '.'
    ensures w !in FreshmanWords + SophomoreWords + JuniorWords + SeniorWords
  {
    assert forall x :: x in FreshmanWords + SophomoreWords + JuniorWords + SeniorWords ==> '.' !in x;
    assert '.' in w;
  }

  lemma {:induction false} KeepNumericOfNumeric(s: string)
    requires forall i :: 0 <= i < |s| ==> IsNumeric(s[i])
    ensures KeepNumeric(s) == s
  {
    if s != [] {
      KeepNumericOfNumeric(s[1..]);
    }
  }

  /** Title-casing changes no digit and no '.'. */
  lemma CapitalizeDigits(s: string)
    requires forall i :: 0 <= i < |s| ==> IsNumeric(s[i])
    ensures CapitalizeWords(s) == s
  {
  }

  // ------------------------------------------------- idempotence

  lemma LowerUpperChar(c: char)
    ensures Lower(Upper(c)) == Lower(c)
  {
  }

  /** Title-casing keeps white space, so a trimmed input stays trimmed. */
  lemma {:induction false} CapitalizeKeepsTrim(s: string)
    requires NoEdgeSpace(s) && s != ""
    ensures Trim(CapitalizeWords(s)) == CapitalizeWords(s)
  {
    var t := CapitalizeWords(s);
    assert !IsSpace(t[0]) && !IsSpace(t[|t| - 1]);
    TrimOfTrimmed(t);
  }

  /** Upper-casing letters changes no digit or '.', so the numeric part is
      the same. */
  lemma {:induction false} KeepNumericOfCapitalized(s: string)
    ensures KeepNumeric(CapitalizeWords(s)) == KeepNumeric(s)
  {
    KeepNumericPointwise(s, CapitalizeWords(s));
  }

  lemma {:induction false} KeepNumericPointwise(s: string, t: string)
    requires |s| == |t|
    requires forall i :: 0 <= i < |s| ==> t[i] == s[i] || (!IsNumeric(s[i]) && !IsNumeric(t[i]))
    ensures KeepNumeric(t) == KeepNumeric(s)
  {
    if s != [] {
      KeepNumericPointwise(s[1..], t[1..]);
    }
  }

  /** Normalising a label again returns it unchanged: the sign-in path
      normalises a grade once when it reads the request and once more when
      it stores the student. */
  lemma {:induction false} NormalizeGradeIdempotent(raw: string)
    ensures NormalizeGrade(NormalizeGrade(raw)) == NormalizeGrade(raw)
  {
    var input := Trim(raw);
    var r := NormalizeGrade(raw);
    if input == "" {
      assert r == "";
      assert Trim("") == "" by { TrimOfTrimmed(""); }
    } else if IsGradeLabel(r) {
      LabelsNormalize();
    } else {
      var lower := ToLower(input);
      assert lower !in FreshmanWords + SophomoreWords + JuniorWords + SeniorWords;
      assert NumericGrade(NumberText(KeepNumeric(input))).None?;
      assert r == CapitalizeWords(input);
      TrimOfTrimmedInput(raw);
      CapitalizeKeepsTrim(input);
      CapitalizeWordsLower(input);
      KeepNumericOfCapitalized(input);
      CapitalizeWordsIdempotent(input);
    }
  }

  lemma TrimOfTrimmedInput(raw: string)
    ensures NoEdgeSpace(Trim(raw))
  {
  }

  // ---------------------------------------------------------- names

  /** signinSplitName_(full): the first word and the remaining words joined
      by single spaces. */
  function SplitName(full: string): (r: (string, string))
  {
    var parts := Words(Trim(full));
    if parts == [] then ("", "")
    else if |parts| == 1 then (parts[0], "")
    else (parts[0], Join(parts[1..], " "))
  }

  /** Splitting a space-joined list of words gives the first word and the
      rest, joined again; a single word has no last name. */
  lemma SplitNameOfWords(ws: seq<string>)
    requires ws != [] && forall i :: 0 <= i < |ws| ==> IsWord(ws[i])
    ensures SplitName(Join(ws, " ")) == (ws[0], if |ws| == 1 then "" else Join(ws[1..], " "))
  {
    JoinNoEdgeSpace(ws, " ");
    TrimOfTrimmed(Join(ws, " "));
    WordsOfJoin(ws);
  }

  /** Blank text has neither a first nor a last name. */
  lemma SplitNameOfBlank(full: string)
    requires Trim(full) == ""
    ensures SplitName(full) == ("", "")
  {
    WordsOfEmpty();
  }
}
