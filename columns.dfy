/**
 * Column matching in `load_excel_data` (app.py, lines 79-107): spreadsheet
 * column names are compared after trimming and lower-casing; the project
 * column is the first candidate found, and all sixteen TR columns must be
 * present, or loading falls back to the built-in sample data.
 */
module Columns {
  import opened Wrappers
  import opened Schema

  /** Python's `str.isspace`: the characters `str.strip()` removes. */
  predicate IsSpace(c: char) {
    c in {'\U{9}', '\U{a}', '\U{b}', '\U{c}', '\U{d}', '\U{1c}', '\U{1d}', '\U{1e}', '\U{1f}', ' ',
          '\U{85}', '\U{a0}', '\U{1680}', '\U{2000}', '\U{2001}', '\U{2002}', '\U{2003}', '\U{2004}',
          '\U{2005}', '\U{2006}', '\U{2007}', '\U{2008}', '\U{2009}', '\U{200a}', '\U{2028}', '\U{2029}',
          '\U{202f}', '\U{205f}', '\U{3000}'}
  }

  /**
   * `s.strip()`: whitespace is dropped from the front, then from the back,
   * until neither end is whitespace.
   */
  function Strip(s: string): string
    decreases |s|
  {
    if s != [] && IsSpace(s[0]) then Strip(s[1..])
    else if s != [] && IsSpace(s[|s| - 1]) then Strip(s[..|s| - 1])
    else s
  }

  /**
   * `s.strip()` is the infix `s[i..j]` left after removing whitespace at
   * both ends: everything before `i` and from `j` on is whitespace, and the
   * result neither starts nor ends with whitespace.
   */
  lemma {:induction false} StripInfix(s: string) returns (i: nat, j: nat)
    ensures i <= j <= |s| && Strip(s) == s[i..j]
    ensures forall k :: 0 <= k < i ==> IsSpace(s[k])
    ensures forall k :: j <= k < |s| ==> IsSpace(s[k])
    ensures i < j ==> !IsSpace(s[i]) && !IsSpace(s[j - 1])
    decreases |s|
  {
    if s != [] && IsSpace(s[0]) {
      var i', j' := StripInfix(s[1..]);
      i, j := i' + 1, j' + 1;
      assert s[1..][i'..j'] == s[i..j];
      forall k | 0 <= k < i ensures IsSpace(s[k]) {
        if k > 0 { assert s[k] == s[1..][k - 1]; }
      }
      forall k | j <= k < |s| ensures IsSpace(s[k]) {
        assert s[k] == s[1..][k - 1];
      }
    } else if s != [] && IsSpace(s[|s| - 1]) {
      i, j := StripInfix(s[..|s| - 1]);
      assert s[..|s| - 1][i..j] == s[i..j];
      forall k | j <= k < |s| ensures IsSpace(s[k]) {
        if k < |s| - 1 { assert s[k] == s[..|s| - 1][k]; }
      }
    } else {
      i, j := 0, |s|;
      assert s[0..|s|] == s;
    }
  }

  /** Stripping twice is stripping once. */
  lemma StripIdempotent(s: string)
    ensures Strip(Strip(s)) == Strip(s)
  {
    var i, j := StripInfix(s);
    var r := Strip(s);
    if r != [] {
      assert r[0] == s[i] && r[|r| - 1] == s[j - 1];
    }
  }

  predicate IsAsciiUpper(c: char) { 'A' <= c <= 'Z' }

  function LowerChar(c: char): char {
    if IsAsciiUpper(c) then (c as int + 32) as char else c
  }

  /** `s.lower()` on the ASCII letters; every other character is kept. */
  function Lower(s: string): (r: string)
    ensures |r| == |s|
    ensures forall k :: 0 <= k < |s| ==> !IsAsciiUpper(r[k])
    ensures forall k :: 0 <= k < |s| && !IsAsciiUpper(s[k]) ==> r[k] == s[k]
    ensures forall k :: 0 <= k < |s| && IsAsciiUpper(s[k]) ==> r[k] as int == s[k] as int + 32
  {
    seq(|s|, k requires 0 <= k < |s| => LowerChar(s[k]))
  }

  /** Lower-casing twice is lower-casing once. */
  lemma LowerIdempotent(s: string)
    ensures Lower(Lower(s)) == Lower(s)
  {
  }

  /** `col.strip().lower()` */
  function Clean(col: string): string {
    Lower(Strip(col))
  }

  /**
   * `{col.strip().lower(): col for col in df.columns}`: the comprehension
   * inserts the columns in order, so a later column overwrites an earlier one
   * with the same cleaned name.
   */
  function CleanColMap(cols: seq<string>): (m: map<string, string>)
    ensures m.Keys == set c | c in cols :: Clean(c)
    ensures forall k :: k in m ==> m[k] in cols && Clean(m[k]) == k
  {
    if cols == [] then map[]
    else
      var last := cols[|cols| - 1];
      assert cols == cols[..|cols| - 1] + [last];
      CleanColMap(cols[..|cols| - 1])[Clean(last) := last]
  }

  /** The value kept for a cleaned name is the last column with that name. */
  lemma {:induction false} CleanColMapLastWins(cols: seq<string>, j: nat)
    requires j < |cols|
    requires forall k :: j < k < |cols| ==> Clean(cols[k]) != Clean(cols[j])
    ensures Clean(cols[j]) in CleanColMap(cols)
    ensures CleanColMap(cols)[Clean(cols[j])] == cols[j]
  {
    var init := cols[..|cols| - 1];
    if j < |cols| - 1 {
      CleanColMapLastWins(init, j);
    }
  }

  /** `project_candidates`, in order of preference. */
  const ProjectCandidates: seq<string> := ["项目", "项目名", "项目名称", "产品", "产品名"]

  /** `required_tr_cols` */
  const RequiredTrCols: seq<string> := [
    "TR1", "TR1延期", "TR2", "TR2延期",
    "TR3", "TR3延期", "TR3A", "TR3A延期",
    "TR4", "TR4延期", "TR4A", "TR4A延期",
    "TR5", "TR5延期", "TR6", "TR6延期"]

  /** The required columns are the names of the slots in `tr_order`. */
  lemma RequiredTrColsAreSlotNames()
    ensures |RequiredTrCols| == |TrOrder|
    ensures forall k :: 0 <= k < |TrOrder| ==> RequiredTrCols[k] == SlotName(TrOrder[k])
  {
  }

  /** The `for candidate ... break` scan for the project column, over `project_candidates`. */
  method FindProjectColumn(cmap: map<string, string>, candidates: seq<string>) returns (col: Option<string>)
    ensures col.None? <==> forall j :: 0 <= j < |candidates| ==> Lower(candidates[j]) !in cmap
    ensures col.Some? ==>
              exists j :: && 0 <= j < |candidates| && Lower(candidates[j]) in cmap
                          && col.value == cmap[Lower(candidates[j])]
                          && forall i :: 0 <= i < j ==> Lower(candidates[i]) !in cmap
  {
    col := None;
    for j := 0 to |candidates|
      invariant col.None?
      invariant forall i :: 0 <= i < j ==> Lower(candidates[i]) !in cmap
    {
      var candidate := Lower(candidates[j]);
      if candidate in cmap {
        col := Some(cmap[candidate]);
        break;
      }
    }
  }

  /** The names of `required` whose cleaned form is not a key of `cmap`, in order. */
  function MissingNames(cmap: map<string, string>, required: seq<string>): seq<string> {
    if required == [] then []
    else
      var last := required[|required| - 1];
      MissingNames(cmap, required[..|required| - 1]) + (if Clean(last) !in cmap then [last] else [])
  }

  /** The names of `required` whose cleaned form is a key of `cmap`, mapped to that key's column. */
  function MatchedNames(cmap: map<string, string>, required: seq<string>): map<string, string> {
    if required == [] then map[]
    else
      var last := required[|required| - 1];
      var m := MatchedNames(cmap, required[..|required| - 1]);
      if Clean(last) in cmap then m[last := cmap[Clean(last)]] else m
  }

  /** `missing_tr_cols` holds exactly the required names that are not found. */
  lemma {:induction false} MissingNamesMembers(cmap: map<string, string>, required: seq<string>)
    ensures forall c :: c in MissingNames(cmap, required) <==> c in required && Clean(c) !in cmap
  {
    if required != [] {
      var init := required[..|required| - 1];
      MissingNamesMembers(cmap, init);
      assert required == init + [required[|required| - 1]];
    }
  }

  /** `tr_col_map` maps exactly the required names that are found, each to its column. */
  lemma {:induction false} MatchedNamesMembers(cmap: map<string, string>, required: seq<string>)
    ensures forall c :: c in MatchedNames(cmap, required) <==> c in required && Clean(c) in cmap
    ensures forall c :: c in MatchedNames(cmap, required) ==> MatchedNames(cmap, required)[c] == cmap[Clean(c)]
  {
    if required != [] {
      var init := required[..|required| - 1];
      MatchedNamesMembers(cmap, init);
      assert required == init + [required[|required| - 1]];
    }
  }

  /**
   * The loop over `required_tr_cols`: `missing_tr_cols` lists, in order, the
   * names not found, and `tr_col_map` maps the others to their columns.
   */
  method CheckTrColumns(cmap: map<string, string>, required: seq<string>) returns (missing: seq<string>, trColMap: map<string, string>)
    ensures missing == MissingNames(cmap, required)
    ensures trColMap == MatchedNames(cmap, required)
  {
    missing, trColMap := [], map[];
    for j := 0 to |required|
      invariant missing == MissingNames(cmap, required[..j])
      invariant trColMap == MatchedNames(cmap, required[..j])
    {
      var trCol := required[j];
      var cleanTrCol := Clean(trCol);
      assert required[..j + 1][..j] == required[..j];
      if cleanTrCol !in cmap {
        missing := missing + [trCol];
      } else {
        trColMap := trColMap[trCol := cmap[cleanTrCol]];
      }
    }
    assert required[..|required|] == required;
  }

  /** Why loading fell back to the sample data. */
  datatype Fallback = NoProjectColumn | MissingTrColumns(missing: seq<string>)

  /** The outcome of column matching: the sample data, or the columns to keep. */
  datatype Ingest = UseSample(reason: Fallback) | UseColumns(projectCol: string, trColMap: map<string, string>)

  /** Steps 3 and 4 of `load_excel_data` over the spreadsheet's column names. */
  method MatchColumns(columns: seq<string>) returns (r: Ingest)
    ensures var cmap := CleanColMap(columns);
      r == UseSample(NoProjectColumn) <==> forall j :: 0 <= j < |ProjectCandidates| ==> Lower(ProjectCandidates[j]) !in cmap
    ensures var cmap := CleanColMap(columns);
      r.UseSample? <==>
        (forall j :: 0 <= j < |ProjectCandidates| ==> Lower(ProjectCandidates[j]) !in cmap)
        || (exists c :: c in RequiredTrCols && Clean(c) !in cmap)
    ensures r.UseSample? && r.reason.MissingTrColumns? ==>
      r.reason.missing == MissingNames(CleanColMap(columns), RequiredTrCols)
    ensures var cmap := CleanColMap(columns);
      r.UseColumns? ==>
        && r.projectCol in columns
        && (exists j :: && 0 <= j < |ProjectCandidates| && Lower(ProjectCandidates[j]) in cmap
                        && r.projectCol == cmap[Lower(ProjectCandidates[j])]
                        && forall i :: 0 <= i < j ==> Lower(ProjectCandidates[i]) !in cmap)
        && (forall c :: c in r.trColMap <==> c in RequiredTrCols)
        && (forall c :: c in r.trColMap ==> r.trColMap[c] == cmap[Clean(c)] && r.trColMap[c] in columns)
  {
    var cmap := CleanColMap(columns);
    var projectCol := FindProjectColumn(cmap, ProjectCandidates);
    if projectCol.None? {
      return UseSample(NoProjectColumn);
    }
    var missing, trColMap := CheckTrColumns(cmap, RequiredTrCols);
    MissingNamesMembers(cmap, RequiredTrCols);
    MatchedNamesMembers(cmap, RequiredTrCols);
    if |missing| > 0 {
      assert missing[0] in RequiredTrCols && Clean(missing[0]) !in cmap;
      return UseSample(MissingTrColumns(missing));
    }
    assert missing == [];
    r := UseColumns(projectCol.value, trColMap);
  }
}
