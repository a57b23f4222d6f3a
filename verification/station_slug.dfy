/**
  The value a station option carries: the station name lower-cased, with
  every run of whitespace replaced by a single `-`. The lookup maps such a
  value back to the first station of the list that produces it.
 */
module StationSlug {
  import opened Outcomes

  /** The characters the pattern `\s` matches in a JavaScript regular expression. */
  predicate IsSpace(c: char) {
    || c == ' ' || c == '\t' || c == '\n' || c == '\r' || c == '\U{000B}' || c == '\U{000C}'
    || c == '\U{00A0}' || c == '\U{1680}' || ('\U{2000}' <= c <= '\U{200A}')
    || c == '\U{2028}' || c == '\U{2029}' || c == '\U{202F}' || c == '\U{205F}'
    || c == '\U{3000}' || c == '\U{FEFF}'
  }

  predicate IsUpper(c: char) {
    'A' <= c <= 'Z'
  }

  function LowerChar(c: char): (r: char)
    ensures !IsUpper(r)
    ensures IsSpace(r) <==> IsSpace(c)
    ensures !IsUpper(c) ==> r == c
  {
    if IsUpper(c) then (c as int + 32) as char else c
  }

  /** `toLowerCase`, on the ASCII letters. */
  function ToLower(s: string): (r: string)
    ensures |r| == |s|
    ensures forall i :: 0 <= i < |s| ==> r[i] == LowerChar(s[i])
    ensures NoUpper(r)
    ensures NoUpper(s) ==> r == s
  {
    seq(|s|, i requires 0 <= i < |s| => LowerChar(s[i]))
  }

  predicate NoSpace(s: string) {
    forall i :: 0 <= i < |s| ==> !IsSpace(s[i])
  }

  predicate NoUpper(s: string) {
    forall i :: 0 <= i < |s| ==> !IsUpper(s[i])
  }

  /**
    `replace(/\s+/g, "-")`: each maximal run of whitespace becomes one `-`.
    `inRun` says whether the character before `s` was whitespace, so a run
    that continues is not replaced a second time.
   */
  function CollapseRuns(s: string, inRun: bool): (r: string)
    ensures |r| <= |s|
  {
    if |s| == 0 then []
    else if IsSpace(s[0]) then
      if inRun then CollapseRuns(s[1..], true) else "-" + CollapseRuns(s[1..], true)
    else
      [s[0]] + CollapseRuns(s[1..], false)
  }

  /** No whitespace survives the replacement, and no upper-case letter is introduced. */
  lemma {:induction false} CollapseRunsClean(s: string, inRun: bool)
    ensures NoSpace(CollapseRuns(s, inRun))
    ensures NoUpper(s) ==> NoUpper(CollapseRuns(s, inRun))
    decreases |s|
  {
    if |s| > 0 {
      CollapseRunsClean(s[1..], IsSpace(s[0]));
      assert NoUpper(s) ==> NoUpper(s[1..]) by {
        if NoUpper(s) {
          forall i | 0 <= i < |s[1..]| ensures !IsUpper(s[1..][i]) {
            assert s[1..][i] == s[i + 1];
          }
        }
      }
    }
  }

  /** Text without whitespace is left as it is. */
  lemma {:induction false} CollapseRunsKeepsWords(s: string, inRun: bool)
    requires NoSpace(s)
    ensures CollapseRuns(s, inRun) == s
    decreases |s|
  {
    if |s| > 0 {
      assert NoSpace(s[1..]) by {
        forall i | 0 <= i < |s[1..]| ensures !IsSpace(s[1..][i]) {
          assert s[1..][i] == s[i + 1];
        }
      }
      CollapseRunsKeepsWords(s[1..], false);
      assert [s[0]] + s[1..] == s;
    }
  }

  /** The option value of a station. */
  function Slug(name: string): (r: string)
    ensures NoSpace(r) && NoUpper(r)
    ensures |r| <= |name|
  {
    CollapseRunsClean(ToLower(name), false);
    CollapseRuns(ToLower(name), false)
  }

  /** A stretch of text without whitespace is copied unchanged, and ends any run. */
  lemma {:induction false} WordIsKept(w: string, rest: string, inRun: bool)
    requires NoSpace(w) && |w| > 0
    ensures CollapseRuns(w + rest, inRun) == w + CollapseRuns(rest, false)
    decreases |w|
  {
    assert (w + rest)[1..] == w[1..] + rest;
    if |w| > 1 {
      WordIsKept(w[1..], rest, false);
      assert w == [w[0]] + w[1..];
    }
  }

  /** A run of one or more whitespace characters becomes a single `-`. */
  lemma {:induction false} RunBecomesOneDash(sp: string, rest: string)
    requires |sp| > 0 && forall i :: 0 <= i < |sp| ==> IsSpace(sp[i])
    requires |rest| == 0 || !IsSpace(rest[0])
    ensures CollapseRuns(sp + rest, false) == "-" + CollapseRuns(rest, false)
  {
    assert (sp + rest)[1..] == sp[1..] + rest;
    ContinuedRunVanishes(sp[1..], rest);
  }

  /** Whitespace that continues a run already replaced produces nothing. */
  lemma {:induction false} ContinuedRunVanishes(sp: string, rest: string)
    requires forall i :: 0 <= i < |sp| ==> IsSpace(sp[i])
    requires |rest| == 0 || !IsSpace(rest[0])
    ensures CollapseRuns(sp + rest, true) == CollapseRuns(rest, false)
    decreases |sp|
  {
    if |sp| == 0 {
      assert sp + rest == rest;
      if |rest| > 0 {
        assert CollapseRuns(rest, true) == [rest[0]] + CollapseRuns(rest[1..], false);
      }
    } else {
      assert (sp + rest)[1..] == sp[1..] + rest;
      ContinuedRunVanishes(sp[1..], rest);
    }
  }

  /** Slugs are already slugs: applying the mapping to an option value changes nothing. */
  lemma SlugIsIdempotent(name: string)
    ensures Slug(Slug(name)) == Slug(name)
  {
    var s := Slug(name);
    assert ToLower(s) == s;
    CollapseRunsKeepsWords(s, false);
  }

  /** A two-word name with any amount of whitespace between the words. */
  lemma TwoWordSlug(a: string, sp: string, b: string)
    requires NoSpace(a) && NoSpace(b) && |a| > 0 && |b| > 0
    requires |sp| > 0 && forall i :: 0 <= i < |sp| ==> IsSpace(sp[i])
    ensures Slug(a + sp + b) == ToLower(a) + "-" + ToLower(b)
  {
    var la, lsp, lb := ToLower(a), ToLower(sp), ToLower(b);
    assert ToLower(a + sp + b) == la + (lsp + lb);
    WordIsKept(la, lsp + lb, false);
    RunBecomesOneDash(lsp, lb);
    CollapseRunsKeepsWords(lb, false);
  }

  /** Lower-casing a short word, one character at a time. */
  lemma LowerWord(w: string, lw: string)
    requires |w| == |lw|
    requires forall i :: 0 <= i < |w| ==> LowerChar(w[i]) == lw[i] && !IsSpace(w[i])
    ensures NoSpace(w) && ToLower(w) == lw
  {
  }

  /** "Al Rigga" is offered as "al-rigga". */
  lemma AlRiggaSlug()
    ensures Slug("Al Rigga") == "al-rigga"
  {
    LowerWord("Al", "al");
    LowerWord("Rigga", "rigga");
    assert "Al Rigga" == "Al" + " " + "Rigga";
    TwoWordSlug("Al", " ", "Rigga");
  }

  /** A doubled space between the words gives the same value. */
  lemma AlRiggaDoubleSpaceSlug()
    ensures Slug("Al  Rigga") == "al-rigga"
  {
    LowerWord("Al", "al");
    LowerWord("Rigga", "rigga");
    assert "Al  Rigga" == "Al" + "  " + "Rigga";
    TwoWordSlug("Al", "  ", "Rigga");
  }

  /** The position of the first station whose slug is `value`, or `|stations|` if there is none. */
  function FirstMatch(stations: seq<string>, value: string): (k: nat)
    ensures k <= |stations|
    ensures forall j :: 0 <= j < k ==> Slug(stations[j]) != value
    ensures k < |stations| ==> Slug(stations[k]) == value
  {
    if |stations| == 0 then 0
    else if Slug(stations[0]) == value then 0
    else 1 + FirstMatch(stations[1..], value)
  }

  /**
    The station the form names for a selected option value: the first one
    of the list whose slug equals it, or nothing.
   */
  function FindStation(stations: seq<string>, value: string): (r: Option<string>)
    ensures r.Some? ==> r.value in stations && Slug(r.value) == value
    ensures r.Some? ==> r.value == stations[FirstMatch(stations, value)]
    ensures r.None? <==> forall i :: 0 <= i < |stations| ==> Slug(stations[i]) != value
  {
    var k := FirstMatch(stations, value);
    if k < |stations| then Some(stations[k]) else None
  }

  /** No two stations of the list share an option value. */
  ghost predicate DistinctSlugs(stations: seq<string>) {
    forall i, j :: 0 <= i < j < |stations| ==> Slug(stations[i]) != Slug(stations[j])
  }

  /** Selecting a station's option and looking its value up gives back that station. */
  lemma LookupFindsSelectedStation(stations: seq<string>, i: int)
    requires DistinctSlugs(stations)
    requires 0 <= i < |stations|
    ensures FindStation(stations, Slug(stations[i])) == Some(stations[i])
  {
    var k := FirstMatch(stations, Slug(stations[i]));
    assert k == i;
  }
}
