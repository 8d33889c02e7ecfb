/**
 * The inspect-and-fix loops of services/geminiService.ts: `runStrictFirewall` (format
 * inspector and fixer, at most four rounds), `generateAndAuditVisuals` (chart auditor and
 * fixer, at most three rounds) and `runFinalPolish`, which runs one after the other.
 *
 * The language-model calls and the caller's stop flag are oracles. Each oracle is handed the
 * trace of the calls made so far, so that its answer may depend on everything that happened
 * before; the trace is also what the properties below are stated about.
 */
module Firewall {
  import opened Wrappers
  import opened Types

  /** Only this many characters of the document go into a prompt (`text.substring(0, 100000)`). */
  const MaxPromptText: nat := 100000

  const FirewallRounds: nat := 4
  const VisualRounds: nat := 3

  function Snippet(text: string): (s: string)
    ensures |s| <= |text| && |s| <= MaxPromptText && s == text[..|s|]
    ensures |text| <= MaxPromptText ==> s == text
  {
    if |text| <= MaxPromptText then text else text[..MaxPromptText]
  }

  /** One call made by a loop, with its answer: `found` the parsed error list, `fixed` the cleaned text. */
  datatype Call =
    | StopCheck(stopped: bool)
    | Inspect(text: string, found: Reply<seq<string>>)
    | Fix(text: string, errors: seq<string>, fixed: Reply<string>)

  /**
   * An inspector and its fixer. `inspect` answers the parsed JSON of the reply, `None` when the
   * reply has no text or does not parse (both mean no errors); `fix` answers the reply text,
   * `None` when there is none. A `Failure` is the error the service call throws.
   */
  datatype Checker = Checker(
    inspect: (seq<Call>, string) -> Reply<Option<seq<string>>>,
    fix: (seq<Call>, string, seq<string>) -> Reply<Option<string>>)

  /** Where the loop ends: the text or the thrown error, and every call made. */
  datatype Run = Run(result: Result<string, string>, trace: seq<Call>)

  /** `checkStop && checkStop()`. */
  predicate Stop(checkStop: Option<seq<Call> -> bool>, trace: seq<Call>) {
    checkStop.Some? && checkStop.value(trace)
  }

  /** The trace after the stop flag has been consulted, if there is one. */
  function Checked(checkStop: Option<seq<Call> -> bool>, trace: seq<Call>): seq<Call> {
    if checkStop.Some? then trace + [StopCheck(checkStop.value(trace))] else trace
  }

  /** `firewallInspect` / `auditVisuals`: the error list, `[]` for a missing or unparsable reply. */
  function Inspected(c: Checker, trace: seq<Call>, text: string): Reply<seq<string>> {
    var reply := c.inspect(trace, Snippet(text));
    if reply.Failure? then Failure(reply.error)
    else if reply.value.None? then Success([])
    else Success(reply.value.value)
  }

  /** `firewallFix` / `fixVisuals`: the reply through `cleanText`. */
  function Fixed(c: Checker, trace: seq<Call>, text: string, errors: seq<string>): Reply<string> {
    var reply := c.fix(trace, Snippet(text), errors);
    if reply.Failure? then Failure(reply.error) else Success(OrEmpty(reply.value))
  }

  /** The rounds from `attempt` (of `cap`) on, with `text` current and `trace` made so far. */
  function Loop(c: Checker, checkStop: Option<seq<Call> -> bool>, cap: nat, attempt: nat, text: string, trace: seq<Call>): Run
    requires attempt <= cap
    decreases cap - attempt
  {
    if attempt == cap then Run(Success(text), trace)
    else if Stop(checkStop, trace) then Run(Failure(Stopped), Checked(checkStop, trace))
    else
      var t1 := Checked(checkStop, trace);
      var found := Inspected(c, t1, text);
      var t2 := t1 + [Inspect(Snippet(text), found)];
      if found.Failure? then Run(Failure(found.error), t2)
      else if found.value == [] then Run(Success(text), t2)
      else if Stop(checkStop, t2) then Run(Failure(Stopped), Checked(checkStop, t2))
      else
        var t3 := Checked(checkStop, t2);
        var fixed := Fixed(c, t3, text, found.value);
        var t4 := t3 + [Fix(Snippet(text), found.value, fixed)];
        if fixed.Failure? then Run(Failure(fixed.error), t4)
        else Loop(c, checkStop, cap, attempt + 1, fixed.value, t4)
  }

  /** The shared loop of both checkers, continuing `trace`. */
  method InspectFixLoop(draft: string, cap: nat, c: Checker, checkStop: Option<seq<Call> -> bool>, trace0: seq<Call>)
    returns (r: Run)
    ensures r == Loop(c, checkStop, cap, 0, draft, trace0)
  {
    var currentText := draft;
    var attempt := 0;
    var trace := trace0;
    while attempt < cap
      invariant attempt <= cap
      invariant Loop(c, checkStop, cap, attempt, currentText, trace) == Loop(c, checkStop, cap, 0, draft, trace0)
      decreases cap - attempt
    {
      if checkStop.Some? {
        var stop := checkStop.value(trace);
        trace := trace + [StopCheck(stop)];
        if stop {
          return Run(Failure(Stopped), trace);
        }
      }
      var errors := Inspected(c, trace, currentText);
      trace := trace + [Inspect(Snippet(currentText), errors)];
      if errors.Failure? {
        return Run(Failure(errors.error), trace);
      }
      if |errors.value| == 0 {
        // `break`, then `return currentText`
        return Run(Success(currentText), trace);
      }
      if checkStop.Some? {
        var stop := checkStop.value(trace);
        trace := trace + [StopCheck(stop)];
        if stop {
          return Run(Failure(Stopped), trace);
        }
      }
      var fixed := Fixed(c, trace, currentText, errors.value);
      trace := trace + [Fix(Snippet(currentText), errors.value, fixed)];
      if fixed.Failure? {
        return Run(Failure(fixed.error), trace);
      }
      currentText := fixed.value;
      attempt := attempt + 1;
    }
    return Run(Success(currentText), trace);
  }

  /** `runStrictFirewall`. */
  method RunStrictFirewall(draft: string, firewall: Checker, checkStop: Option<seq<Call> -> bool>, trace0: seq<Call>)
    returns (r: Run)
    ensures r == Loop(firewall, checkStop, FirewallRounds, 0, draft, trace0)
  {
    r := InspectFixLoop(draft, FirewallRounds, firewall, checkStop, trace0);
  }

  /** `generateAndAuditVisuals`. */
  method GenerateAndAuditVisuals(text: string, visuals: Checker, checkStop: Option<seq<Call> -> bool>, trace0: seq<Call>)
    returns (r: Run)
    ensures r == Loop(visuals, checkStop, VisualRounds, 0, text, trace0)
  {
    r := InspectFixLoop(text, VisualRounds, visuals, checkStop, trace0);
  }

  /** The firewall, then, on the firewall's text, the chart audit; an error of either is thrown on. */
  function Polished(content: string, firewall: Checker, visuals: Checker, checkStop: Option<seq<Call> -> bool>): Run {
    var first := Loop(firewall, checkStop, FirewallRounds, 0, content, []);
    if first.result.Failure? then first
    else Loop(visuals, checkStop, VisualRounds, 0, first.result.value, first.trace)
  }

  /** `runFinalPolish`. */
  method RunFinalPolish(content: string, firewall: Checker, visuals: Checker, checkStop: Option<seq<Call> -> bool>)
    returns (r: Run)
    ensures r == Polished(content, firewall, visuals, checkStop)
  {
    var firewalled := RunStrictFirewall(content, firewall, checkStop, []);
    if firewalled.result.Failure? {
      return firewalled;
    }
    r := GenerateAndAuditVisuals(firewalled.result.value, visuals, checkStop, firewalled.trace);
  }

  // ---------------------------------------------------------------------------
  // Properties of the trace

  function Inspections(trace: seq<Call>): nat {
    if trace == [] then 0
    else Inspections(trace[..|trace| - 1]) + (if trace[|trace| - 1].Inspect? then 1 else 0)
  }

  /** The text of the last successful fix, `draft` when there was none. */
  function Latest(trace: seq<Call>, draft: string): string {
    if trace == [] then draft
    else if trace[|trace| - 1].Fix? && trace[|trace| - 1].fixed.Success? then trace[|trace| - 1].fixed.value
    else Latest(trace[..|trace| - 1], draft)
  }

  /** A call that makes the loop throw: a raised stop flag or a failed service call. */
  predicate Fails(call: Call) {
    match call
    case StopCheck(stopped) => stopped
    case Inspect(_, found) => found.Failure?
    case Fix(_, _, fixed) => fixed.Failure?
  }

  function ErrorOf(call: Call): string
    requires Fails(call)
  {
    match call
    case StopCheck(_) => Stopped
    case Inspect(_, found) => found.error
    case Fix(_, _, fixed) => fixed.error
  }

  /** The trace continues the one the loop was given. */
  lemma {:induction false} LoopExtends(c: Checker, checkStop: Option<seq<Call> -> bool>, cap: nat, attempt: nat, text: string, trace: seq<Call>)
    requires attempt <= cap
    ensures var r := Loop(c, checkStop, cap, attempt, text, trace);
      |trace| <= |r.trace| && r.trace[..|trace|] == trace
    decreases cap - attempt
  {
    if attempt < cap && !Stop(checkStop, trace) {
      var t1 := Checked(checkStop, trace);
      var found := Inspected(c, t1, text);
      var t2 := t1 + [Inspect(Snippet(text), found)];
      if found.Success? && found.value != [] && !Stop(checkStop, t2) {
        var t3 := Checked(checkStop, t2);
        var fixed := Fixed(c, t3, text, found.value);
        var t4 := t3 + [Fix(Snippet(text), found.value, fixed)];
        if fixed.Success? {
          LoopExtends(c, checkStop, cap, attempt + 1, fixed.value, t4);
          assert t4[..|trace|] == trace;
        }
      }
    }
  }

  lemma InspectionsSnoc(trace: seq<Call>, call: Call)
    ensures Inspections(trace + [call]) == Inspections(trace) + (if call.Inspect? then 1 else 0)
  {
    assert (trace + [call])[..|trace|] == trace;
  }

  lemma LatestSnoc(trace: seq<Call>, call: Call, draft: string)
    ensures Latest(trace + [call], draft) ==
      if call.Fix? && call.fixed.Success? then call.fixed.value else Latest(trace, draft)
  {
    assert (trace + [call])[..|trace|] == trace;
  }

  lemma InspectionsChecked(checkStop: Option<seq<Call> -> bool>, trace: seq<Call>)
    ensures Inspections(Checked(checkStop, trace)) == Inspections(trace)
  {
    if checkStop.Some? {
      InspectionsSnoc(trace, StopCheck(checkStop.value(trace)));
    }
  }

  /** Each remaining round inspects at most once. */
  lemma {:induction false} InspectionBound(c: Checker, checkStop: Option<seq<Call> -> bool>, cap: nat, attempt: nat, text: string, trace: seq<Call>)
    requires attempt <= cap
    ensures Inspections(Loop(c, checkStop, cap, attempt, text, trace).trace) <= Inspections(trace) + (cap - attempt)
    decreases cap - attempt
  {
    if attempt < cap {
      var t1 := Checked(checkStop, trace);
      InspectionsChecked(checkStop, trace);
      if !Stop(checkStop, trace) {
        var found := Inspected(c, t1, text);
        var t2 := t1 + [Inspect(Snippet(text), found)];
        InspectionsSnoc(t1, Inspect(Snippet(text), found));
        var t3 := Checked(checkStop, t2);
        InspectionsChecked(checkStop, t2);
        if found.Success? && found.value != [] && !Stop(checkStop, t2) {
          var fixed := Fixed(c, t3, text, found.value);
          var t4 := t3 + [Fix(Snippet(text), found.value, fixed)];
          InspectionsSnoc(t3, Fix(Snippet(text), found.value, fixed));
          if fixed.Success? {
            InspectionBound(c, checkStop, cap, attempt + 1, fixed.value, t4);
            assert Loop(c, checkStop, cap, attempt, text, trace) == Loop(c, checkStop, cap, attempt + 1, fixed.value, t4);
          }
        }
      }
    }
  }

  /** The loop returns the last fixer output, or the text it was given when nothing was fixed. */
  lemma {:induction false} LoopResult(c: Checker, checkStop: Option<seq<Call> -> bool>, cap: nat, attempt: nat, text: string, trace: seq<Call>, draft: string)
    requires attempt <= cap && Latest(trace, draft) == text
    ensures var r := Loop(c, checkStop, cap, attempt, text, trace);
      r.result.Success? ==> r.result.value == Latest(r.trace, draft)
    decreases cap - attempt
  {
    if attempt < cap && !Stop(checkStop, trace) {
      var t1 := Checked(checkStop, trace);
      if checkStop.Some? {
        LatestSnoc(trace, StopCheck(checkStop.value(trace)), draft);
      }
      var found := Inspected(c, t1, text);
      var t2 := t1 + [Inspect(Snippet(text), found)];
      LatestSnoc(t1, Inspect(Snippet(text), found), draft);
      if found.Success? && found.value != [] && !Stop(checkStop, t2) {
        var t3 := Checked(checkStop, t2);
        if checkStop.Some? {
          LatestSnoc(t2, StopCheck(checkStop.value(t2)), draft);
        }
        var fixed := Fixed(c, t3, text, found.value);
        var t4 := t3 + [Fix(Snippet(text), found.value, fixed)];
        LatestSnoc(t3, Fix(Snippet(text), found.value, fixed), draft);
        if fixed.Success? {
          LoopResult(c, checkStop, cap, attempt + 1, fixed.value, t4, draft);
        }
      }
    }
  }

  /** The loop throws exactly when its last call raised the stop flag or failed, with that call's error. */
  lemma {:induction false} LoopThrows(c: Checker, checkStop: Option<seq<Call> -> bool>, cap: nat, attempt: nat, text: string, trace: seq<Call>)
    requires attempt <= cap
    requires trace != [] ==> !Fails(trace[|trace| - 1])
    ensures var r := Loop(c, checkStop, cap, attempt, text, trace);
      && (r.result.Failure? <==> r.trace != [] && Fails(r.trace[|r.trace| - 1]))
      && (r.result.Failure? ==> r.result.error == ErrorOf(r.trace[|r.trace| - 1]))
    decreases cap - attempt
  {
    if attempt < cap && !Stop(checkStop, trace) {
      var t1 := Checked(checkStop, trace);
      var found := Inspected(c, t1, text);
      var t2 := t1 + [Inspect(Snippet(text), found)];
      if found.Success? && found.value != [] && !Stop(checkStop, t2) {
        var t3 := Checked(checkStop, t2);
        var fixed := Fixed(c, t3, text, found.value);
        var t4 := t3 + [Fix(Snippet(text), found.value, fixed)];
        if fixed.Success? {
          LoopThrows(c, checkStop, cap, attempt + 1, fixed.value, t4);
        }
      }
    }
  }

  /**
   * The call discipline: with a stop flag, every service call comes right after a check that
   * found it down, and only the last call may raise the flag or fail; every fix repairs the
   * text just inspected with the non-empty error list just found; no prompt holds more than
   * `MaxPromptText` characters of the document.
   */
  predicate Disciplined(trace: seq<Call>, guarded: bool) {
    && (forall k :: 0 <= k < |trace| - 1 ==> !Fails(trace[k]))
    && (forall k :: 0 <= k < |trace| && trace[k].Inspect? ==> |trace[k].text| <= MaxPromptText)
    && (forall k :: 0 <= k < |trace| && trace[k].Fix? ==> FixJustified(trace, k))
    && (guarded ==> forall k :: 0 <= k < |trace| && !trace[k].StopCheck? ==> 1 <= k && trace[k - 1] == StopCheck(false))
    && (!guarded ==> forall k :: 0 <= k < |trace| ==> !trace[k].StopCheck?)
  }

  /** The fix at `k` follows the inspection of its text that found its errors, and they are some. */
  predicate FixJustified(trace: seq<Call>, k: nat)
    requires k < |trace| && trace[k].Fix?
  {
    var f := trace[k];
    && f.errors != []
    && 1 <= k
    && (trace[k - 1] == Inspect(f.text, Success(f.errors))
        || (2 <= k && trace[k - 1] == StopCheck(false) && trace[k - 2] == Inspect(f.text, Success(f.errors))))
  }

  lemma DisciplinedSnoc(trace: seq<Call>, call: Call, guarded: bool)
    requires Disciplined(trace, guarded)
    requires trace != [] ==> !Fails(trace[|trace| - 1])
    requires call.Inspect? ==> |call.text| <= MaxPromptText
    requires call.Fix? ==> FixJustified(trace + [call], |trace|)
    requires guarded && !call.StopCheck? ==> trace != [] && trace[|trace| - 1] == StopCheck(false)
    requires !guarded ==> !call.StopCheck?
    ensures Disciplined(trace + [call], guarded)
  {
    var s := trace + [call];
    forall k | 0 <= k < |s| && s[k].Fix? ensures FixJustified(s, k) {
      if k < |trace| {
        assert FixJustified(trace, k);
      }
    }
  }

  /** One stop check keeps the discipline. */
  lemma CheckedDisciplined(checkStop: Option<seq<Call> -> bool>, trace: seq<Call>)
    requires Disciplined(trace, checkStop.Some?)
    requires trace != [] ==> !Fails(trace[|trace| - 1])
    ensures Disciplined(Checked(checkStop, trace), checkStop.Some?)
  {
    if checkStop.Some? {
      DisciplinedSnoc(trace, StopCheck(checkStop.value(trace)), true);
    }
  }

  /** An inspection after a stop check that found the flag down keeps the discipline. */
  lemma InspectDisciplined(checkStop: Option<seq<Call> -> bool>, trace: seq<Call>, call: Call)
    requires Disciplined(trace, checkStop.Some?)
    requires trace != [] ==> !Fails(trace[|trace| - 1])
    requires !Stop(checkStop, trace) && call.Inspect? && |call.text| <= MaxPromptText
    ensures Disciplined(Checked(checkStop, trace) + [call], checkStop.Some?)
  {
    CheckedDisciplined(checkStop, trace);
    DisciplinedSnoc(Checked(checkStop, trace), call, checkStop.Some?);
  }

  /** A fix of what the last inspection found, after a stop check that found the flag down. */
  lemma FixDisciplined(checkStop: Option<seq<Call> -> bool>, t2: seq<Call>, call: Call)
    requires Disciplined(t2, checkStop.Some?) && t2 != []
    requires call.Fix? && call.errors != [] && t2[|t2| - 1] == Inspect(call.text, Success(call.errors))
    requires !Stop(checkStop, t2)
    ensures Disciplined(Checked(checkStop, t2) + [call], checkStop.Some?)
  {
    var t3 := Checked(checkStop, t2);
    CheckedDisciplined(checkStop, t2);
    var t4 := t3 + [call];
    assert FixJustified(t4, |t3|) by {
      assert t4[|t3|] == call;
      if checkStop.Some? {
        assert t4[|t3| - 1] == StopCheck(false) && t4[|t3| - 2] == t2[|t2| - 1];
      } else {
        assert t4[|t3| - 1] == t2[|t2| - 1];
      }
    }
    DisciplinedSnoc(t3, call, checkStop.Some?);
  }

  lemma {:induction false} LoopDisciplined(c: Checker, checkStop: Option<seq<Call> -> bool>, cap: nat, attempt: nat, text: string, trace: seq<Call>)
    requires attempt <= cap && Disciplined(trace, checkStop.Some?)
    requires trace != [] ==> !Fails(trace[|trace| - 1])
    ensures Disciplined(Loop(c, checkStop, cap, attempt, text, trace).trace, checkStop.Some?)
    decreases cap - attempt
  {
    if attempt < cap {
      CheckedDisciplined(checkStop, trace);
      if !Stop(checkStop, trace) {
        var t1 := Checked(checkStop, trace);
        var found := Inspected(c, t1, text);
        var t2 := t1 + [Inspect(Snippet(text), found)];
        InspectDisciplined(checkStop, trace, Inspect(Snippet(text), found));
        if found.Success? && found.value != [] {
          CheckedDisciplined(checkStop, t2);
          if !Stop(checkStop, t2) {
            var t3 := Checked(checkStop, t2);
            var fixed := Fixed(c, t3, text, found.value);
            var t4 := t3 + [Fix(Snippet(text), found.value, fixed)];
            FixDisciplined(checkStop, t2, Fix(Snippet(text), found.value, fixed));
            if fixed.Success? {
              LoopDisciplined(c, checkStop, cap, attempt + 1, fixed.value, t4);
            }
          }
        }
      }
    }
  }

  /** A draft the first inspection finds clean is returned unchanged after that one call. */
  lemma CleanDraftUnchanged(c: Checker, cap: nat, draft: string)
    requires cap >= 1
    requires c.inspect([], Snippet(draft)) == Success(Some([])) || c.inspect([], Snippet(draft)) == Success(None)
    ensures Loop(c, None, cap, 0, draft, []) == Run(Success(draft), [Inspect(Snippet(draft), Success([]))])
  {
  }

  /** A stop flag already raised throws before any service call. */
  lemma StopFirst(c: Checker, checkStop: seq<Call> -> bool, cap: nat, draft: string)
    requires cap >= 1 && checkStop([])
    ensures Loop(c, Some(checkStop), cap, 0, draft, []) == Run(Failure(Stopped), [StopCheck(true)])
  {
  }

  /** The loop's guarantees together, from a trace that keeps the discipline and does not end in a failure. */
  lemma LoopSound(c: Checker, checkStop: Option<seq<Call> -> bool>, cap: nat, text: string, trace: seq<Call>, draft: string)
    requires Disciplined(trace, checkStop.Some?) && Latest(trace, draft) == text
    requires trace != [] ==> !Fails(trace[|trace| - 1])
    ensures var r := Loop(c, checkStop, cap, 0, text, trace);
      && Inspections(r.trace) <= Inspections(trace) + cap
      && Disciplined(r.trace, checkStop.Some?)
      && (r.result.Success? ==> r.result.value == Latest(r.trace, draft))
      && (r.result.Failure? <==> r.trace != [] && Fails(r.trace[|r.trace| - 1]))
      && (r.result.Failure? ==> r.result.error == ErrorOf(r.trace[|r.trace| - 1]))
  {
    InspectionBound(c, checkStop, cap, 0, text, trace);
    LoopDisciplined(c, checkStop, cap, 0, text, trace);
    LoopResult(c, checkStop, cap, 0, text, trace, draft);
    LoopThrows(c, checkStop, cap, 0, text, trace);
  }

  /**
   * `runFinalPolish` inspects at most seven times, keeps the call discipline across both
   * loops, returns the last fixer output (the content itself if nothing was fixed), and
   * throws exactly when its last call raised the stop flag or failed.
   */
  lemma PolishedProperties(content: string, firewall: Checker, visuals: Checker, checkStop: Option<seq<Call> -> bool>)
    ensures var r := Polished(content, firewall, visuals, checkStop);
      && Inspections(r.trace) <= FirewallRounds + VisualRounds
      && Disciplined(r.trace, checkStop.Some?)
      && (r.result.Success? ==> r.result.value == Latest(r.trace, content))
      && (r.result.Failure? <==> r.trace != [] && Fails(r.trace[|r.trace| - 1]))
      && (r.result.Failure? ==> r.result.error == ErrorOf(r.trace[|r.trace| - 1]))
  {
    var first := Loop(firewall, checkStop, FirewallRounds, 0, content, []);
    LoopSound(firewall, checkStop, FirewallRounds, content, [], content);
    if first.result.Success? {
      var text := first.result.value;
      LoopSound(visuals, checkStop, VisualRounds, text, first.trace, content);
    }
  }
}
