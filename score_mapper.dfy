/**
 * `SCORE_MAP` and `mapScore` (app/csat/page.tsx): a raw survey cell becomes an
 * optional numeric score. The cell is trimmed, then resolved by, in order,
 * (1) an exact lookup in the label table, where the "F. N/A" label gives absent;
 * (2) its first character, upper-cased, if that is one of A..E;
 * (3) a numeric parse; (4) otherwise absent.
 *
 * JavaScript's `Number(t)` is the parameter `parse`, restricted to its finite
 * results: `parse(t) == None` stands for a NaN or infinite `Number(t)`. The one
 * case of `Number` that is fixed here is the empty string, whose value is 0.
 */
module ScoreMapper {
  import opened Wrappers

  /** The label table `SCORE_MAP`; a key mapped to `None` is the label whose value is `null`. */
  const ScoreMap: map<string, Option<real>> := map[
    "A. Extremely satisfied" := Some(5.0),
    "B. Somewhat satisfied" := Some(4.0),
    "C. Neither satisfied nor dissatisfied" := Some(3.0),
    "D. Somewhat dissatisfied" := Some(2.0),
    "E. Extremely dissatisfied" := Some(1.0),
    NotApplicable := None
  ]

  const NotApplicable: string := "F. N/A (I do not use this feature)"

  /** The letter table `{A:5, B:4, C:3, D:2, E:1}`. */
  const LetterMap: map<char, real> := map['A' := 5.0, 'B' := 4.0, 'C' := 3.0, 'D' := 2.0, 'E' := 1.0]

  /**
   * The characters `String.prototype.trim` removes: the ECMAScript white space
   * (tab, vertical tab, form feed, the byte order mark and the space separators)
   * and line terminators.
   */
  predicate IsJsSpace(c: char)
  {
    || c == '\t' || c == '\n' || c == '\U{000B}' || c == '\U{000C}' || c == '\r'
    || c == ' ' || c == '\U{00A0}' || c == '\U{1680}' || '\U{2000}' <= c <= '\U{200A}'
    || c == '\U{2028}' || c == '\U{2029}' || c == '\U{202F}' || c == '\U{205F}'
    || c == '\U{3000}' || c == '\U{FEFF}'
  }

  predicate Blank(s: string)
  {
    forall k :: 0 <= k < |s| ==> IsJsSpace(s[k])
  }

  function TrimStart(s: string): string
  {
    if |s| > 0 && IsJsSpace(s[0]) then TrimStart(s[1..]) else s
  }

  function TrimEnd(s: string): string
  {
    if |s| > 0 && IsJsSpace(s[|s| - 1]) then TrimEnd(s[..|s| - 1]) else s
  }

  /** `String(v).trim()`: white space removed from both ends. */
  function Trim(s: string): string
  {
    TrimEnd(TrimStart(s))
  }

  /** ASCII upper-casing; no other character upper-cases into A..E. */
  function ToUpper(c: char): char
  {
    if 'a' <= c <= 'z' then (c as int - 32) as char else c
  }

  /** The numeric step: `Number(t)` kept only when finite; `Number("")` is 0. */
  function NumberOf(t: string, parse: string -> Option<real>): Option<real>
  {
    if t == "" then Some(0.0) else parse(t)
  }

  /** The three lookups of `mapScore` on an already trimmed cell: label, letter, number. */
  function Resolve(t: string, parse: string -> Option<real>): Option<real>
  {
    if t in ScoreMap then ScoreMap[t]
    else if |t| > 0 && ToUpper(t[0]) in LetterMap then Some(LetterMap[ToUpper(t[0])])
    else NumberOf(t, parse)
  }

  /**
   * `mapScore` exactly as the source has it, including `mapScore("") == 0`: an
   * undefined cell and the N/A label are absent, and every present score is a
   * label or letter value in 1..5 or the numeric value of the trimmed cell.
   */
  function MapScoreAsWritten(v: Option<string>, parse: string -> Option<real>): (r: Option<real>)
    ensures v.None? ==> r.None?
    ensures v.Some? && Trim(v.value) == NotApplicable ==> r.None?
    ensures r.Some? ==> r.value in {1.0, 2.0, 3.0, 4.0, 5.0} || r == NumberOf(Trim(v.value), parse)
  {
    match v
    case None => None
    case Some(s) => Resolve(Trim(s), parse)
  }

  /**
   * `mapScore` with a blank cell read as absent rather than as the score 0: a cell
   * of white space only is absent, and every other cell is resolved exactly as
   * the source does.
   */
  function MapScore(v: Option<string>, parse: string -> Option<real>): (r: Option<real>)
    ensures v.None? ==> r.None?
    ensures v.Some? && Blank(v.value) ==> r.None?
    ensures v.Some? && !Blank(v.value) ==> r == MapScoreAsWritten(v, parse)
  {
    match v
    case None => None
    case Some(s) =>
      TrimEmptyIffBlank(s);
      if Trim(s) == "" then None else MapScoreAsWritten(v, parse)
  }

  // ---------------------------------------------------------------- lemmas

  /** `TrimStart` drops a blank prefix and stops at the first character that is not white space. */
  lemma {:induction false} TrimStartDrops(s: string)
    ensures var r := TrimStart(s);
      && |r| <= |s| && r == s[|s| - |r|..] && Blank(s[..|s| - |r|])
      && (|r| == 0 || !IsJsSpace(r[0]))
    decreases |s|
  {
    if |s| > 0 && IsJsSpace(s[0]) {
      var r := TrimStart(s[1..]);
      TrimStartDrops(s[1..]);
      assert s[..|s| - |r|] == [s[0]] + s[1..][..|s| - 1 - |r|];
    }
  }

  /** `TrimEnd` drops a blank suffix and stops at the last character that is not white space. */
  lemma {:induction false} TrimEndDrops(s: string)
    ensures var r := TrimEnd(s);
      && |r| <= |s| && r == s[..|r|] && Blank(s[|r|..])
      && (|r| == 0 || !IsJsSpace(r[|r| - 1]))
    decreases |s|
  {
    if |s| > 0 && IsJsSpace(s[|s| - 1]) {
      var r := TrimEnd(s[..|s| - 1]);
      TrimEndDrops(s[..|s| - 1]);
      assert s[|r|..] == s[..|s| - 1][|r|..] + [s[|s| - 1]];
    }
  }

  /** The trimmed cell neither starts nor ends with white space. */
  lemma TrimEnds(s: string)
    ensures var t := Trim(s); |t| <= |s| && (|t| == 0 || (!IsJsSpace(t[0]) && !IsJsSpace(t[|t| - 1])))
  {
    var a := TrimStart(s);
    var t := TrimEnd(a);
    TrimStartDrops(s);
    TrimEndDrops(a);
    if |t| > 0 {
      assert t[0] == a[0];
    }
  }

  /** The trimmed cell is a slice of the cell with only white space outside it. */
  lemma TrimSlice(s: string)
    ensures var t := Trim(s); exists i :: 0 <= i <= i + |t| <= |s| && t == s[i..i + |t|] && Blank(s[..i]) && Blank(s[i + |t|..])
  {
    var a := TrimStart(s);
    var t := TrimEnd(a);
    var i := |s| - |a|;
    TrimStartDrops(s);
    TrimEndDrops(a);
    assert a == s[i..];
    assert t == a[..|t|] == s[i..i + |t|];
    assert a[|t|..] == s[i + |t|..];
    assert Blank(s[..i]) && Blank(s[i + |t|..]);
  }

  lemma TrimEmptyIffBlank(s: string)
    ensures Trim(s) == "" <==> Blank(s)
  {
    TrimSlice(s);
    if Trim(s) == "" {
      var i :| 0 <= i <= |s| && Blank(s[..i]) && Blank(s[i..]);
      forall k | 0 <= k < |s|
        ensures IsJsSpace(s[k])
      {
        if k < i { assert s[..i][k] == s[k]; } else { assert s[i..][k - i] == s[k]; }
      }
    } else if Blank(s) {
      BlankTrimsAway(s);
    }
  }

  /** Trimming the start of a blank cell leaves nothing. */
  lemma {:induction false} BlankTrimsAway(s: string)
    requires Blank(s)
    ensures TrimStart(s) == ""
    decreases |s|
  {
    if |s| > 0 {
      assert Blank(s[1..]) by {
        assert forall k :: 0 <= k < |s| - 1 ==> s[1..][k] == s[k + 1];
      }
      BlankTrimsAway(s[1..]);
    }
  }

  lemma TrimIdempotent(s: string)
    ensures Trim(Trim(s)) == Trim(s)
  {
    var t := Trim(s);
    TrimEnds(s);
    if |t| > 0 {
      assert TrimStart(t) == t;
      assert TrimEnd(t) == t;
    }
  }

  /** Missing cells and the "F. N/A" label, with any surrounding white space, are absent. */
  lemma AbsentCells(s: string, parse: string -> Option<real>)
    ensures MapScore(None, parse) == None
    ensures Trim(s) == NotApplicable ==> MapScore(Some(s), parse) == None
  {
  }

  /**
   * Every present score comes from one of the steps: a label or a letter gives a
   * whole number in 1..5; any other value is the numeric parse of the trimmed
   * cell, which is neither a label nor starts with a letter A..E in either case.
   */
  lemma ScoreSources(s: string, parse: string -> Option<real>, x: real)
    requires MapScore(Some(s), parse) == Some(x)
    ensures || x in {1.0, 2.0, 3.0, 4.0, 5.0}
            || (parse(Trim(s)) == Some(x) && Trim(s) != "" && Trim(s) !in ScoreMap && ToUpper(Trim(s)[0]) !in LetterMap)
  {
  }

  /**
   * A non-blank trimmed cell that is neither a label nor starts with a letter
   * A..E in either case scores its numeric parse, and is absent when that fails,
   * both as written and corrected.
   */
  lemma NumericCellParses(s: string, parse: string -> Option<real>)
    requires Trim(s) != "" && Trim(s) !in ScoreMap && ToUpper(Trim(s)[0]) !in LetterMap
    ensures MapScoreAsWritten(Some(s), parse) == parse(Trim(s))
    ensures MapScore(Some(s), parse) == parse(Trim(s))
  {
    TrimEmptyIffBlank(s);
  }

  /** Each of the five scored labels starts with the letter whose table value it has. */
  lemma LabelsAgreeWithLetters(t: string)
    requires t in ScoreMap
    ensures ScoreMap[t].Some? <==> ToUpper(t[0]) in LetterMap
    ensures ScoreMap[t].Some? ==> ScoreMap[t] == Some(LetterMap[ToUpper(t[0])])
  {
    if t == "A. Extremely satisfied" {
    } else if t == "B. Somewhat satisfied" {
    } else if t == "C. Neither satisfied nor dissatisfied" {
    } else if t == "D. Somewhat dissatisfied" {
    } else if t == "E. Extremely dissatisfied" {
    } else {
      assert t == NotApplicable;
      assert t[0] == 'F';
    }
  }

  /**
   * A trimmed cell that starts with A..E in either case scores by its letter alone
   * (A=5 .. E=1), whether or not it is one of the labels.
   */
  lemma LetterDecides(s: string, parse: string -> Option<real>)
    requires Trim(s) != "" && ToUpper(Trim(s)[0]) in LetterMap
    ensures MapScore(Some(s), parse) == Some(LetterMap[ToUpper(Trim(s)[0])])
  {
    var t := Trim(s);
    if t in ScoreMap {
      LabelsAgreeWithLetters(t);
    }
  }

  /** Only white space around a cell never changes its score. */
  lemma ScoreIgnoresPadding(s: string, parse: string -> Option<real>)
    ensures MapScore(Some(s), parse) == MapScore(Some(Trim(s)), parse)
  {
    TrimIdempotent(s);
  }

  // ------------------------------------------- the blank cell (as written vs corrected)

  /** As written, an empty or all-white-space cell scores 0, because `Number("")` is 0. */
  lemma BlankCellScoresZeroAsWritten(s: string, parse: string -> Option<real>)
    requires Blank(s)
    ensures MapScoreAsWritten(Some(s), parse) == Some(0.0)
  {
    TrimEmptyIffBlank(s);
    assert "" !in ScoreMap by {
      LabelsNonEmpty();
    }
  }

  lemma LabelsNonEmpty()
    ensures forall t :: t in ScoreMap ==> |t| > 0
  {
  }

  /** With blank cells absent, a present score of 0 can only come from a non-blank numeric cell. */
  lemma ZeroOnlyFromNumber(s: string, parse: string -> Option<real>)
    requires MapScore(Some(s), parse) == Some(0.0)
    ensures !Blank(s) && parse(Trim(s)) == Some(0.0)
  {
    TrimEmptyIffBlank(s);
    ScoreSources(s, parse, 0.0);
  }
}
