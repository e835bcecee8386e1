/**
 * The hint logic of the Pyodide editor component
 * (frontend-react/components/PythonCodeEditorPyodide.tsx): the effect that
 * loads a problem's stored hints, `getNextHint`, and the error bookkeeping of
 * `runCode`. `getNextHint` suspends at its `fetch`; it is modelled as two
 * steps, `RequestHint` up to the request and `ReceiveHint` for the outcome,
 * with the request in flight kept in `inFlight` (the values the suspended
 * closure captured). The stored token, the API base URL, the clock and the
 * Python run's result are parameters.
 */
module PyodideEditor {
  import opened Wrappers
  import Hints
  import Api
  import TokenAuth
  import Http

  const SignInText := "Please sign in to get hints."
  const FailedHintText := "Failed to get hint. Please try again."
  const EmptyReplyText := "Unable to generate hint. Please try again."
  /** The highest hint level the editor asks for. */
  const MaxHintLevel := 4

  /**
   * The hint request: the facts the prompt is built from (problem, code,
   * history text, the runtime error section if any, the level asked for)
   * and where and how it is sent.
   */
  datatype HintRequest = HintRequest(problem: string, code: string, history: string, runtimeError: Option<string>,
                                     level: int, url: string, authorization: string)

  /** How the request ends: an OK response with its `reply` ("" when falsy), a non-OK status, or a thrown error. */
  datatype HintOutcome = Replied(reply: string) | NotOk | Threw

  /** A run of the user's code: it finished, or raised an error with this message. */
  datatype RunResult = Completed | Raised(message: string)

  /** The hint shown and stored for a reply: `data.reply || "Unable to generate hint. ..."`. */
  function ReplyText(reply: string): (h: string)
    ensures h != ""
    ensures reply != "" ==> h == reply
  {
    if reply != "" then reply else EmptyReplyText
  }

  /** The "Previous hints given" text for the loaded record, if any. */
  function HistoryFor(loaded: Option<Hints.ProblemHints>): (r: string)
    ensures loaded.None? || loaded.value.hints == [] ==> r == Hints.NoHintsText
    ensures loaded.Some? ==> r == Hints.HintHistoryString(loaded.value)
  {
    match loaded
    case None => Hints.NoHintsText
    case Some(record) => Hints.HintHistoryString(record)
  }

  /** The runtime-error section of the prompt: present exactly when the last run left an error. */
  function ErrorSection(lastError: string): (r: Option<string>)
    ensures r.Some? <==> lastError != ""
    ensures r.Some? ==> r.value == lastError
  {
    if lastError != "" then Some(lastError) else None
  }

  class Editor {
    /** The browser storage the hint functions read and write. */
    const store: Hints.HintStore
    /** The `problem` prop. */
    var problem: string
    var code: string
    var hintLevel: int
    var currentHint: string
    var isLoadingHint: bool
    var problemHints: Option<Hints.ProblemHints>
    /** `lastErrorRef.current` */
    var lastError: string
    /** Pyodide has loaded (`pyodide` is non-null). */
    var runtimeReady: bool
    /** The request `getNextHint` is waiting on. */
    var inFlight: Option<HintRequest>

    /**
     * A request is in flight exactly while a hint is loading, and it is for a
     * problem; the level shown is the loaded record's (0 before any load).
     */
    ghost predicate Valid()
      reads this
    {
      && (isLoadingHint <==> inFlight.Some?)
      && (inFlight.Some? ==> inFlight.value.problem != "" && inFlight.value.level <= MaxHintLevel)
      && (problemHints.Some? ==> hintLevel == problemHints.value.currentLevel)
      && (problemHints.None? ==> hintLevel == 0)
    }

    /** The component's first render with `problem` and `code`, followed by the load effect. */
    constructor (store: Hints.HintStore, problem: string, code: string)
      ensures Valid()
      ensures this.store == store && this.problem == problem && this.code == code
      ensures !isLoadingHint && lastError == "" && !runtimeReady
      ensures problem == "" ==> problemHints.None? && hintLevel == 0 && currentHint == ""
      ensures problem != "" ==> problemHints == Some(Hints.Lookup(store.stored, problem))
      ensures problem != "" && Hints.Lookup(store.stored, problem).hints != [] ==>
        currentHint == Hints.Lookup(store.stored, problem).hints[|Hints.Lookup(store.stored, problem).hints| - 1].hint
    ensures problem != "" && Hints.Lookup(store.stored, problem).hints == [] ==> currentHint == ""
    {
      this.store := store;
      this.problem := problem;
      this.code := code;
      hintLevel := 0;
      currentHint := "";
      isLoadingHint := false;
      problemHints := None;
      lastError := "";
      runtimeReady := false;
      inFlight := None;
      new;
      if problem != "" {
        var hints := store.GetProblemHints(problem);
        problemHints := Some(hints);
        hintLevel := hints.currentLevel;
        if |hints.hints| > 0 {
          currentHint := hints.hints[|hints.hints| - 1].hint;
        }
      }
    }

    /**
     * A new `problem` prop and the effect it triggers: for a non-empty
     * problem, its record is loaded, the level follows it, and its last hint
     * is shown. Without stored hints the hint on screen stays as it was.
     */
    method SetProblem(p: string)
      requires Valid()
      modifies this
      ensures Valid()
      ensures problem == p && code == old(code) && lastError == old(lastError) && runtimeReady == old(runtimeReady)
      ensures isLoadingHint == old(isLoadingHint) && inFlight == old(inFlight)
      ensures p == old(problem) || p == "" ==>
        problemHints == old(problemHints) && hintLevel == old(hintLevel) && currentHint == old(currentHint)
      ensures p != old(problem) && p != "" ==>
        var r := Hints.Lookup(store.stored, p);
        problemHints == Some(r) && hintLevel == r.currentLevel
        && currentHint == (if r.hints != [] then r.hints[|r.hints| - 1].hint else old(currentHint))
    {
      if p == problem {
        return;
      }
      problem := p;
      if p != "" {
        var hints := store.GetProblemHints(p);
        problemHints := Some(hints);
        hintLevel := hints.currentLevel;
        if |hints.hints| > 0 {
          currentHint := hints.hints[|hints.hints| - 1].hint;
        }
      }
    }

    /** The editor's code changes. */
    method SetCode(c: string)
      requires Valid()
      modifies this
      ensures Valid() && code == c
      ensures problem == old(problem) && hintLevel == old(hintLevel) && currentHint == old(currentHint)
      ensures isLoadingHint == old(isLoadingHint) && inFlight == old(inFlight) && problemHints == old(problemHints)
      ensures lastError == old(lastError) && runtimeReady == old(runtimeReady)
    {
      code := c;
    }

    /** Pyodide finishes loading. */
    method RuntimeLoaded()
      requires Valid()
      modifies this
      ensures Valid() && runtimeReady
      ensures problem == old(problem) && code == old(code) && hintLevel == old(hintLevel) && currentHint == old(currentHint)
      ensures isLoadingHint == old(isLoadingHint) && inFlight == old(inFlight) && problemHints == old(problemHints)
      ensures lastError == old(lastError)
    {
      runtimeReady := true;
    }

    /**
     * The hint button is shown and enabled: then no request is in flight, and
     * the level a click asks for is at most 4.
     */
    function HintButtonEnabled(): (enabled: bool)
      reads this
      ensures enabled ==> problem != "" && hintLevel + 1 <= MaxHintLevel
      ensures Valid() && enabled ==> inFlight.None?
    {
      problem != "" && !isLoadingHint && hintLevel < MaxHintLevel && runtimeReady
    }

    /**
     * `getNextHint` up to its `fetch`. It returns the request it sends, if
     * any. Refused (empty problem, a hint loading, level 4 reached): nothing
     * changes. No token: only the sign-in message is shown. Otherwise the
     * request for level `hintLevel + 1` goes out and a hint is loading.
     */
    method RequestHint(token: Option<string>, apiBase: string) returns (sent: Option<HintRequest>)
      requires Valid()
      modifies this
      ensures Valid()
      ensures problem == old(problem) && code == old(code) && lastError == old(lastError) && runtimeReady == old(runtimeReady)
      ensures hintLevel == old(hintLevel) && problemHints == old(problemHints)
      ensures old(problem) == "" || old(isLoadingHint) || old(hintLevel) >= MaxHintLevel ==>
        sent.None? && currentHint == old(currentHint) && isLoadingHint == old(isLoadingHint) && inFlight == old(inFlight)
      ensures old(problem) != "" && !old(isLoadingHint) && old(hintLevel) < MaxHintLevel && !Http.Given(token) ==>
        sent.None? && currentHint == SignInText && !isLoadingHint && inFlight.None?
      ensures sent.Some? <==> old(problem) != "" && !old(isLoadingHint) && old(hintLevel) < MaxHintLevel && Http.Given(token)
      ensures old(HintButtonEnabled()) && Http.Given(token) ==> sent.Some?
      ensures sent.Some? ==>
        && sent.value == HintRequest(problem, code, HistoryFor(problemHints), ErrorSection(lastError), hintLevel + 1,
                                     Api.ChatUrl(apiBase), TokenAuth.BearerPrefix + token.value)
        && sent.value.level <= MaxHintLevel
        && isLoadingHint && inFlight == sent && currentHint == old(currentHint)
    {
      sent := None;
      if problem == "" || isLoadingHint || hintLevel >= MaxHintLevel {
        return;
      }
      isLoadingHint := true;
      var nextLevel := hintLevel + 1;
      if !Http.Given(token) {
        currentHint := SignInText;
        isLoadingHint := false;
        return;
      }
      var history := HistoryFor(problemHints);
      var request := HintRequest(problem, code, history, ErrorSection(lastError), nextLevel,
                                 Api.ChatUrl(apiBase), TokenAuth.BearerPrefix + token.value);
      inFlight := Some(request);
      sent := Some(request);
    }

    /**
     * The rest of `getNextHint`, when the request in flight ends. A reply is
     * appended to the stored record of the request's problem (an empty reply
     * as the fallback text), and the level follows the updated record. A
     * failure only shows the failure text. Either way loading ends.
     */
    method ReceiveHint(outcome: HintOutcome, now: int)
      requires Valid() && isLoadingHint
      modifies this, store
      ensures Valid() && !isLoadingHint && inFlight.None?
      ensures problem == old(problem) && code == old(code) && lastError == old(lastError) && runtimeReady == old(runtimeReady)
      ensures outcome.Replied? ==>
        var hint := ReplyText(outcome.reply);
        var updated := Hints.Appended(Hints.Lookup(old(store.stored), old(inFlight).value.problem), hint, now);
        && store.stored == Hints.Save(old(store.stored), updated)
        && problemHints == Some(updated) && hintLevel == updated.currentLevel && currentHint == hint
      ensures !outcome.Replied? ==>
        && store.stored == old(store.stored) && currentHint == FailedHintText
        && problemHints == old(problemHints) && hintLevel == old(hintLevel)
      ensures (outcome.Replied? && old(hintLevel) + 1 == old(inFlight).value.level
               && old(hintLevel) == Hints.Lookup(old(store.stored), old(inFlight).value.problem).currentLevel) ==>
        hintLevel == old(inFlight).value.level
    {
      var request := inFlight.value;
      match outcome {
        case Replied(reply) =>
          var hint := ReplyText(reply);
          // `if (problem)` holds: a request is only sent for a problem
          var updated := store.AddHint(request.problem, hint, now);
          problemHints := Some(updated);
          hintLevel := updated.currentLevel;
          currentHint := hint;
        case NotOk =>
          currentHint := FailedHintText;
        case Threw =>
          currentHint := FailedHintText;
      }
      isLoadingHint := false;
      inFlight := None;
    }

    /**
     * `runCode`'s effect on the hint prompt: nothing without the runtime;
     * otherwise the last error is cleared, then set to the message of an
     * error the run raised.
     */
    method RunCode(result: RunResult)
      requires Valid()
      modifies this
      ensures Valid()
      ensures !old(runtimeReady) ==> lastError == old(lastError)
      ensures old(runtimeReady) ==> lastError == (if result.Raised? then result.message else "")
      ensures problem == old(problem) && code == old(code) && hintLevel == old(hintLevel) && currentHint == old(currentHint)
      ensures isLoadingHint == old(isLoadingHint) && inFlight == old(inFlight) && problemHints == old(problemHints)
      ensures runtimeReady == old(runtimeReady)
    {
      if !runtimeReady {
        return;
      }
      lastError := "";
      match result
      case Completed =>
      case Raised(message) =>
        lastError := message;
    }
  }
}
