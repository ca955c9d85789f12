/**
 * Decision extraction from the model's free-text answer. An explicit answer
 * line wins: the first line that starts (after trimming, ignoring case) with
 * SAME or DIFFERENT decides. Only when no line does is the first 100
 * characters searched for whichever word comes first, and when neither word
 * is there the answer is DIFFERENT, so an unclear reply never merges two
 * entities.
 */
module Parser {
  import opened Wrappers
  import opened Text
  import opened Types

  /** How many leading characters the fallback search looks at. */
  const Window: nat := 100

  /** What one line says on its own: its trimmed, upper-cased form starts with SAME or with DIFFERENT. */
  function LineVerdict(line: string): Option<Decision> {
    var upper := ToUpper(Trim(line));
    if StartsWith(upper, "SAME") then Some(Same)
    else if StartsWith(upper, "DIFFERENT") then Some(Different)
    else None
  }

  /** The lines the scan visits: the trimmed response split on line feeds. */
  function Lines(response: string): seq<string> {
    Split(Trim(response), '\n')
  }

  /** The verdict of the first line that has one, if any line has. */
  function FirstVerdict(lines: seq<string>): (r: Option<Decision>)
    ensures r.None? <==> forall k :: 0 <= k < |lines| ==> LineVerdict(lines[k]).None?
  {
    if lines == [] then None
    else if LineVerdict(lines[0]).Some? then LineVerdict(lines[0])
    else FirstVerdict(lines[1..])
  }

  /** The upper-cased window the fallback searches. */
  function WindowText(response: string): string {
    ToUpper(Prefix(response, Window))
  }

  /** The fallback: whichever word occurs first in the window, DIFFERENT when neither does. */
  function WindowDecision(response: string): Decision {
    EarlierWord(WindowText(response))
  }

  /** Whichever of SAME and DIFFERENT occurs first in `firstWords`, DIFFERENT when neither does. */
  function EarlierWord(firstWords: string): Decision {
    var samePos := IndexOf(firstWords, "SAME");
    var diffPos := IndexOf(firstWords, "DIFFERENT");
    if samePos >= 0 && (diffPos < 0 || samePos < diffPos) then Same
    else if diffPos >= 0 then Different
    else Different
  }

  /** The decision the parser reaches on `response`. */
  function DecisionOf(response: string): Decision {
    match FirstVerdict(Lines(response))
    case Some(d) => d
    case None => WindowDecision(response)
  }

  /**
   * The parser itself: a scan over the lines that stops at the first
   * explicit answer, then the windowed fallback when the scan found none.
   * It is total: every string, the empty one included, gets a decision.
   */
  method ParseDecision(response: string) returns (d: Decision)
    ensures d == DecisionOf(response)
  {
    var lines := Split(Trim(response), '\n');
    var decision: Option<Decision> := None;
    // the scan stops at the first explicit answer line (the source's `break`)
    var i := 0;
    while decision.None? && i < |lines|
      invariant 0 <= i <= |lines|
      invariant decision.None? ==> FirstVerdict(lines[i..]) == FirstVerdict(lines)
      invariant decision.Some? ==> decision == FirstVerdict(lines)
    {
      var lineStripped := Trim(lines[i]);
      if StartsWith(ToUpper(lineStripped), "SAME") {
        decision := Some(Same);
      } else if StartsWith(ToUpper(lineStripped), "DIFFERENT") {
        decision := Some(Different);
      } else {
        assert lines[i..][1..] == lines[i + 1..];
        i := i + 1;
      }
    }

    if decision.None? {
      // no explicit answer line: search the first characters instead
      assert FirstVerdict(lines).None?;
      var firstWords := ToUpper(Prefix(response, Window));
      var samePos := IndexOf(firstWords, "SAME");
      var diffPos := IndexOf(firstWords, "DIFFERENT");
      if samePos >= 0 && (diffPos < 0 || samePos < diffPos) {
        decision := Some(Same);
      } else if diffPos >= 0 {
        decision := Some(Different);
      } else {
        // conservative default: never merge on an unclear answer
        decision := Some(Different);
      }
    }
    d := decision.value;
  }

  /** The first line with a verdict decides the scan, whatever the later lines say. */
  lemma {:induction false} FirstMatchDecides(lines: seq<string>, k: nat)
    requires k < |lines| && LineVerdict(lines[k]).Some?
    requires forall j :: 0 <= j < k ==> LineVerdict(lines[j]).None?
    ensures FirstVerdict(lines) == LineVerdict(lines[k])
  {
    if k > 0 {
      FirstMatchDecides(lines[1..], k - 1);
    }
  }

  /**
   * Line scan: when line `k` of the trimmed response is the first whose
   * trimmed, upper-cased form starts with SAME or DIFFERENT, that word is the
   * decision; the window is not consulted.
   */
  lemma LineScanDecides(response: string, k: nat)
    requires k < |Lines(response)| && LineVerdict(Lines(response)[k]).Some?
    requires forall j :: 0 <= j < k ==> LineVerdict(Lines(response)[j]).None?
    ensures DecisionOf(response) == LineVerdict(Lines(response)[k]).value
  {
    FirstMatchDecides(Lines(response), k);
  }

  /**
   * The fallback on its own: it picks SAME exactly when SAME occurs in the
   * text and DIFFERENT occurs nowhere before that occurrence.
   */
  lemma EarlierWordSameIff(w: string)
    ensures EarlierWord(w) == Same <==>
      exists p :: OccursAt(w, "SAME", p) && forall q :: 0 <= q < p ==> !OccursAt(w, "DIFFERENT", q)
  {
    var samePos := IndexOf(w, "SAME");
    var diffPos := IndexOf(w, "DIFFERENT");
    if EarlierWord(w) == Same {
      assert OccursAt(w, "SAME", samePos);
    }
    if exists p :: OccursAt(w, "SAME", p) && forall q :: 0 <= q < p ==> !OccursAt(w, "DIFFERENT", q) {
      var p :| OccursAt(w, "SAME", p) && forall q :: 0 <= q < p ==> !OccursAt(w, "DIFFERENT", q);
      assert samePos != -1;
      assert samePos <= p;
      if diffPos != -1 {
        assert w[samePos] == "SAME"[0];
        assert w[diffPos] == "DIFFERENT"[0];
        assert samePos < diffPos;
      }
    }
  }

  /**
   * Fallback, SAME side: with no answer line, the decision is SAME exactly
   * when SAME occurs in the upper-cased window and DIFFERENT occurs nowhere
   * before that occurrence.
   */
  lemma WindowSameIff(response: string)
    requires FirstVerdict(Lines(response)).None?
    ensures DecisionOf(response) == Same <==>
      exists p :: OccursAt(WindowText(response), "SAME", p)
                  && forall q :: 0 <= q < p ==> !OccursAt(WindowText(response), "DIFFERENT", q)
  {
    EarlierWordSameIff(WindowText(response));
  }

  /**
   * Fallback, DIFFERENT side: with no answer line, DIFFERENT occurring in the
   * window with no SAME before it gives DIFFERENT.
   */
  lemma WindowDifferent(response: string, q: nat)
    requires FirstVerdict(Lines(response)).None?
    requires OccursAt(WindowText(response), "DIFFERENT", q)
    requires forall p :: 0 <= p < q ==> !OccursAt(WindowText(response), "SAME", p)
    ensures DecisionOf(response) == Different
  {
    var w := WindowText(response);
    WindowSameIff(response);
    assert w[q] == "DIFFERENT"[0];
    forall p | OccursAt(w, "SAME", p)
      ensures w[p] == 'S'
    {
      assert w[p] == "SAME"[0];
    }
  }

  /** Conservative default: no answer line and neither word in the window gives DIFFERENT. */
  lemma ConservativeDefault(response: string)
    requires FirstVerdict(Lines(response)).None?
    requires forall p :: !OccursAt(WindowText(response), "SAME", p)
    requires forall p :: !OccursAt(WindowText(response), "DIFFERENT", p)
    ensures DecisionOf(response) == Different
  {
  }

  /** Window bound: without an answer line, only the first 100 characters matter. */
  lemma WindowBound(r1: string, r2: string)
    requires FirstVerdict(Lines(r1)).None? && FirstVerdict(Lines(r2)).None?
    requires Prefix(r1, Window) == Prefix(r2, Window)
    ensures DecisionOf(r1) == DecisionOf(r2)
  {
  }

  /** Case-insensitivity: responses that agree once upper-cased get the same decision. */
  lemma CaseInsensitive(r1: string, r2: string)
    requires ToUpper(r1) == ToUpper(r2)
    ensures DecisionOf(r1) == DecisionOf(r2)
  {
    DecisionOfUpper(r1);
    DecisionOfUpper(r2);
  }

  lemma DecisionOfUpper(response: string)
    ensures DecisionOf(ToUpper(response)) == DecisionOf(response)
  {
    TrimUpper(response);
    SplitUpper(Trim(response), '\n');
    assert Lines(ToUpper(response)) == UpperAll(Lines(response));
    FirstVerdictUpper(Lines(response));
    UpperSlice(response, 0, |Prefix(response, Window)|);
    assert Prefix(ToUpper(response), Window) == ToUpper(Prefix(response, Window));
    UpperIdempotent(Prefix(response, Window));
    assert WindowText(ToUpper(response)) == WindowText(response);
  }

  lemma {:induction false} FirstVerdictUpper(lines: seq<string>)
    ensures FirstVerdict(UpperAll(lines)) == FirstVerdict(lines)
  {
    if lines != [] {
      TrimUpper(lines[0]);
      UpperIdempotent(Trim(lines[0]));
      assert LineVerdict(ToUpper(lines[0])) == LineVerdict(lines[0]);
      assert UpperAll(lines)[1..] == UpperAll(lines[1..]);
      FirstVerdictUpper(lines[1..]);
    }
  }

  /** A string with no whitespace at either end is its own trim. */
  lemma TrimmedAlready(s: string)
    requires s != [] && !IsWhitespace(s[0]) && !IsWhitespace(s[|s| - 1])
    ensures Trim(s) == s
  {
  }

  /** The verdict of a trimmed line whose first letter is neither S nor D, in either case. */
  lemma NoVerdict(line: string)
    requires line != [] && !IsWhitespace(line[0]) && !IsWhitespace(line[|line| - 1])
    requires UpperChar(line[0]) != 'S' && UpperChar(line[0]) != 'D'
    ensures LineVerdict(line) == None
  {
    TrimmedAlready(line);
    assert ToUpper(line)[0] == UpperChar(line[0]);
  }

  /** A line that is exactly SAME. */
  lemma SameLine()
    ensures LineVerdict("SAME") == Some(Same)
  {
    TrimmedAlready("SAME");
    assert ToUpper("SAME") == "SAME";
  }

  /** Splitting `a + "\n" + b` for lines `a` and `b` without line feeds. */
  lemma TwoLines(a: string, b: string)
    requires '\n' !in a && '\n' !in b
    ensures Split(a + "\n" + b, '\n') == [a, b]
  {
    SplitJoin([a, b], '\n');
    assert Join([a, b], "\n") == a + "\n" + b;
  }

  /** DIFFERENT at `q` with no SAME before it: the fallback gives DIFFERENT. */
  lemma EarlierWordDifferent(w: string, q: nat)
    requires OccursAt(w, "DIFFERENT", q)
    requires forall p :: 0 <= p < q ==> !OccursAt(w, "SAME", p)
    ensures EarlierWord(w) == Different
  {
    EarlierWordSameIff(w);
    assert w[q] == "DIFFERENT"[0];
    forall p | OccursAt(w, "SAME", p)
      ensures w[p] == 'S'
    {
      assert w[p] == "SAME"[0];
    }
  }

  /**
   * An answer line beats an earlier mention: in "I think DIFFERENT\nSAME"
   * the window alone would say DIFFERENT, but the second line starts with
   * SAME, so the decision is SAME.
   */
  lemma AnswerLineBeatsEarlierMention()
    ensures WindowDecision("I think DIFFERENT\nSAME") == Different
    ensures DecisionOf("I think DIFFERENT\nSAME") == Same
  {
    MentionWindow();
    MentionLines();
    NoVerdict("I think DIFFERENT");
    SameLine();
  }

  lemma MentionLines()
    ensures Lines("I think DIFFERENT\nSAME") == ["I think DIFFERENT", "SAME"]
  {
    var s := "I think DIFFERENT\nSAME";
    TrimmedAlready(s);
    TwoLines("I think DIFFERENT", "SAME");
    assert "I think DIFFERENT" + "\n" + "SAME" == s;
  }

  lemma MentionWindow()
    ensures WindowDecision("I think DIFFERENT\nSAME") == Different
  {
    var s := "I think DIFFERENT\nSAME";
    assert Prefix(s, Window) == s;
    var w := ToUpper(s);
    assert s[8..17] == "DIFFERENT";
    UpperSlice(s, 8, 17);
    assert ToUpper("DIFFERENT") == "DIFFERENT";
    assert OccursAt(w, "DIFFERENT", 8);
    assert s[..8] == "I think ";
    UpperSlice(s, 0, 8);
    assert ToUpper("I think ") == "I THINK ";
    forall p | 0 <= p < 8 ensures !OccursAt(w, "SAME", p) {
      assert w[p] == w[..8][p];
    }
    EarlierWordDifferent(w, 8);
  }

  /**
   * An explicit first line wins over anything after it, such as
   * "SAME\nThese are different entities though".
   */
  lemma ExplicitFirstLine(rest: string)
    ensures DecisionOf("SAME\n" + rest) == Same
  {
    var s := "SAME\n" + rest;
    assert s[..4] == "SAME" && s[4] == '\n';
    assert TrimStart(s) == s;
    TrimEndSpec(s);
    var t := Trim(s);
    assert !IsWhitespace(s[3]);
    assert |t| >= 4;
    assert t[..4] == "SAME";
    if |t| == 4 {
      SplitFree(t, '\n');
      assert Lines(s) == ["SAME"];
    } else {
      assert t == "SAME" + ([t[4]] + t[5..]);
      SplitPrefixed("SAME", t[5..], '\n');
      assert Lines(s)[0] == "SAME";
    }
    SameLine();
    FirstMatchDecides(Lines(s), 0);
  }

  /** The empty reply gives DIFFERENT. */
  lemma EmptyReply()
    ensures DecisionOf("") == Different
  {
    assert Lines("") == [""];
    assert LineVerdict("") == None;
  }
}
