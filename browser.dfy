/** The embedded browser that drives the supplier's web site (tabacchi/browserWebkit2.py): the waiting
    script that createAsyncScript writes, and the Browser window's queue of scripts. Each queue entry
    names a URL to wait for, a script and whether the script answers asynchronously; the entries run
    from the end of the list, the next one starting when the current one is finished. The page loads,
    the end of a script, the messages the page posts and the buttons are events, one method each; the
    URI the web view reports is the last one asked for or reported loaded. Widgets and the web engine
    are not part of this model. */
module Browser {
  import opened Wrappers
  import opened Text

  // ---------------------------------------------------------------------------------------------
  // createAsyncScript

  const JS_ASYNC_MSG_DONE: string := "JS_PYMSG_CHANNEL_DONE"
  const JS_ASYNC_MSG_OUT_TIME: string := "JS_PYMSG_CHANNEL_OUT_TIME"
  const DEFAULT_MAX_ITER: int := 50
  const DEFAULT_INTERVAL: int := 100

  /** The statement that posts a message on the channel of the same name. */
  function PostMessage(channel: string): string {
    "window.webkit.messageHandlers." + channel + ".postMessage('" + channel + "');"
  }

  /** A timer that calls timeoutFunc after `interval` milliseconds. */
  function Timer(interval: int): string {
    "setTimeout(timeoutFunc, " + IntToString(interval) + ")"
  }

  // The fixed text between the parts of the script.
  const SCRIPT_START: string := "var iter_num = 0; var interval = "
  const TURN_TEST: string := ";\n        function timeoutFunc() {\n            iter_num ++;\n            if ("
  const STOP_TIMER: string := ") { clearTimeout(interval);\n                "
  const NEXT_LINE: string := "\n                "
  const LIMIT_TEST: string := "\n            }\n            else if (iter_num > "
  const RESTART: string := "\n            }\n            else interval = "
  const SCRIPT_END: string := ";\n        }\n        "

  /** The pieces written one after the other. */
  function Joined(parts: seq<string>): string {
    if |parts| == 0 then "" else Joined(parts[..|parts| - 1]) + parts[|parts| - 1]
  }

  /** The pieces of createAsyncScript(condition, script, max_iter, interval): each turn counts
      itself; when the condition holds the timer stops, the script runs and DONE is posted; past
      max_iter turns the timer stops and OUT_TIME is posted; otherwise the timer is set again. */
  function AsyncParts(condition: string, script: string, maxIter: int, interval: int): seq<string> {
    [SCRIPT_START, Timer(interval), TURN_TEST, condition, STOP_TIMER, script, NEXT_LINE,
     PostMessage(JS_ASYNC_MSG_DONE), LIMIT_TEST, IntToString(maxIter), STOP_TIMER,
     PostMessage(JS_ASYNC_MSG_OUT_TIME), RESTART, Timer(interval), SCRIPT_END]
  }

  function AsyncScript(condition: string, script: string, maxIter: int, interval: int): string {
    Joined(AsyncParts(condition, script, maxIter, interval))
  }

  /** Piece i starts where the pieces before it end, and the text grows by each piece in turn. */
  lemma {:induction false} JoinedPlaces(parts: seq<string>, i: nat)
    requires i < |parts|
    ensures OccursAt(Joined(parts), parts[i], |Joined(parts[..i])|)
    ensures |Joined(parts[..i + 1])| == |Joined(parts[..i])| + |parts[i]|
    decreases |parts|
  {
    var n := |parts| - 1;
    assert parts[..i + 1][..i] == parts[..i];
    if i < n {
      JoinedPlaces(parts[..n], i);
      assert parts[..n][..i] == parts[..i] && parts[..n][i] == parts[i];
      var u := Joined(parts[..n]);
      var k := |Joined(parts[..i])|;
      assert (u + parts[n])[k..k + |parts[i]|] == u[k..k + |parts[i]|];
    } else {
      assert parts[..n] == parts[..i];
      var u := Joined(parts[..n]);
      assert (u + parts[n])[|u|..] == parts[n];
    }
  }

  /** A piece ends before the next but one starts when the piece between them is not empty. */
  lemma JoinedAfter(parts: seq<string>, i: nat)
    requires i + 2 < |parts| && |parts[i + 1]| > 0
    ensures |Joined(parts[..i])| + |parts[i]| < |Joined(parts[..i + 2])|
  {
    JoinedPlaces(parts, i);
    JoinedPlaces(parts, i + 1);
  }

  /** In fifteen pieces whose even-numbered ones between 4 and 10 are not empty, the odd-numbered
      pieces from 3 to 11 occur in order, each ending before the next starts. */
  lemma FifteenInOrder(parts: seq<string>) returns (k3: nat, k5: nat, k7: nat, k9: nat, k11: nat)
    requires |parts| == 15 && |parts[4]| > 0 && |parts[6]| > 0 && |parts[8]| > 0 && |parts[10]| > 0
    ensures && OccursAt(Joined(parts), parts[3], k3) && OccursAt(Joined(parts), parts[5], k5)
              && OccursAt(Joined(parts), parts[7], k7) && OccursAt(Joined(parts), parts[9], k9)
              && OccursAt(Joined(parts), parts[11], k11)
              && k3 + |parts[3]| < k5 && k5 + |parts[5]| < k7 && k7 + |parts[7]| < k9 && k9 + |parts[9]| < k11
    ensures OccursAt(Joined(parts), parts[1], |parts[0]|)
  {
    JoinedPlaces(parts, 0);
    assert parts[..0] == [];
    JoinedPlaces(parts, 1);
    JoinedPlaces(parts, 3);
    JoinedPlaces(parts, 5);
    JoinedPlaces(parts, 7);
    JoinedPlaces(parts, 9);
    JoinedPlaces(parts, 11);
    JoinedAfter(parts, 3);
    JoinedAfter(parts, 5);
    JoinedAfter(parts, 7);
    JoinedAfter(parts, 9);
    k3, k5, k7 := |Joined(parts[..3])|, |Joined(parts[..5])|, |Joined(parts[..7])|;
    k9, k11 := |Joined(parts[..9])|, |Joined(parts[..11])|;
  }

  /** The script embeds its arguments in order: the condition, then the script, then the DONE post,
      then the turn limit maxIter, then the OUT_TIME post; the first timer waits `interval`. */
  lemma AsyncScriptEmbeds(condition: string, script: string, maxIter: int, interval: int)
    returns (kc: nat, ks: nat, kd: nat, km: nat, ko: nat)
    ensures var t := AsyncScript(condition, script, maxIter, interval);
              && OccursAt(t, condition, kc) && OccursAt(t, script, ks) && OccursAt(t, PostMessage(JS_ASYNC_MSG_DONE), kd)
              && OccursAt(t, IntToString(maxIter), km) && OccursAt(t, PostMessage(JS_ASYNC_MSG_OUT_TIME), ko)
              && kc + |condition| < ks && ks + |script| < kd && kd + |PostMessage(JS_ASYNC_MSG_DONE)| < km
              && km + |IntToString(maxIter)| < ko
    ensures OccursAt(AsyncScript(condition, script, maxIter, interval), Timer(interval), |SCRIPT_START|)
  {
    var parts := AsyncParts(condition, script, maxIter, interval);
    assert |parts[4]| > 0 && |parts[6]| > 0 && |parts[8]| > 0 && |parts[10]| > 0;
    kc, ks, kd, km, ko := FifteenInOrder(parts);
  }

  /** What the page posts. */
  datatype AsyncMessage = Done | OutOfTime

  /** The script at work: at turn t (iter_num after the increment, from 1) it posts DONE, after running
      the script, when the condition holds, OUT_TIME when t is past maxIter, and otherwise waits for
      the next turn; cond gives the condition's value at each turn. The result is the message and the
      turn it was posted at. */
  function Poll(cond: nat -> bool, maxIter: int, t: nat): (AsyncMessage, nat)
    requires t >= 1
    decreases if t <= maxIter then maxIter + 1 - t else 0
  {
    if cond(t) then (Done, t)
    else if t > maxIter then (OutOfTime, t)
    else Poll(cond, maxIter, t + 1)
  }

  /** The last turn the script can reach: maxIter + 1, or 1 when maxIter is not positive. */
  function LastTurn(maxIter: int): nat {
    if maxIter >= 0 then maxIter + 1 else 1
  }

  lemma {:induction false} PollFrom(cond: nat -> bool, maxIter: int, t: nat)
    requires 1 <= t <= LastTurn(maxIter) && forall s :: 1 <= s < t ==> !cond(s)
    ensures var r := Poll(cond, maxIter, t);
            && t <= r.1 <= LastTurn(maxIter)
            && (forall s :: 1 <= s < r.1 ==> !cond(s))
            && (r.0 == Done <==> cond(r.1))
            && (r.0 == OutOfTime ==> r.1 == LastTurn(maxIter))
    decreases if t <= maxIter then maxIter + 1 - t else 0
  {
    if !cond(t) && t <= maxIter {
      PollFrom(cond, maxIter, t + 1);
    }
  }

  /** DONE is posted exactly when the condition holds at some turn up to maxIter + 1, at the first
      such turn; otherwise OUT_TIME is posted at turn maxIter + 1. No turn comes after that. */
  lemma PollOutcome(cond: nat -> bool, maxIter: int)
    ensures var r := Poll(cond, maxIter, 1);
            && 1 <= r.1 <= LastTurn(maxIter)
            && (r.0 == Done <==> exists s :: 1 <= s <= LastTurn(maxIter) && cond(s))
            && (r.0 == Done ==> cond(r.1) && forall s :: 1 <= s < r.1 ==> !cond(s))
            && (r.0 == OutOfTime ==> r.1 == LastTurn(maxIter) && forall s :: 1 <= s <= r.1 ==> !cond(s))
  {
    PollFrom(cond, maxIter, 1);
  }

  // ---------------------------------------------------------------------------------------------
  // The script queue

  /** An entry of a script list: (MSG, WAIT_URL, SCRIPT, ASYNC, CALLBACK). The callback is named. */
  datatype Entry = Entry(msg: string, waitUrl: Option<string>, script: string, isAsync: bool, callback: Option<string>)

  /** An entry runs at once when it waits for no URL or for the one shown. */
  predicate Ready(e: Entry, uri: Option<string>) {
    e.waitUrl.None? || e.waitUrl == uri
  }

  /** Where popping a list stops: at the first entry from the end that must wait for its URL, or at the
      first one whose script starts; ready entries with an empty script are passed over. */
  datatype Settled = Exhausted | Waiting(rest: seq<Entry>, entry: Entry) | Running(rest: seq<Entry>, entry: Entry)

  function Settle(list: seq<Entry>, uri: Option<string>): Settled
    decreases |list|
  {
    if |list| == 0 then Exhausted
    else
      var e := list[|list| - 1];
      var rest := list[..|list| - 1];
      if !Ready(e, uri) then Waiting(rest, e)
      else if e.script != "" then Running(rest, e)
      else Settle(rest, uri)
  }

  /** Popping takes entries from the end: the entry it stops at is the last one not passed over, what
      stays is the list before it, and every entry passed over was ready with an empty script; a list
      is exhausted only when every entry in it is. */
  lemma {:induction false} SettleFromEnd(list: seq<Entry>, uri: Option<string>)
    ensures Settle(list, uri).Exhausted? ==>
              forall i :: 0 <= i < |list| ==> Ready(list[i], uri) && list[i].script == ""
    ensures !Settle(list, uri).Exhausted? ==>
              var s := Settle(list, uri);
              && |s.rest| < |list| && list[..|s.rest|] == s.rest && list[|s.rest|] == s.entry
              && (forall i :: |s.rest| < i < |list| ==> Ready(list[i], uri) && list[i].script == "")
              && (s.Waiting? <==> !Ready(s.entry, uri))
              && (s.Running? ==> s.entry.script != "")
    decreases |list|
  {
    if |list| > 0 {
      var e := list[|list| - 1];
      var rest := list[..|list| - 1];
      if Ready(e, uri) && e.script == "" {
        SettleFromEnd(rest, uri);
        var s := Settle(rest, uri);
        if !s.Exhausted? {
          assert list[..|s.rest|] == rest[..|s.rest|];
        }
      }
    }
  }

  /** What the window shows and has done, as the fields of Browser hold it. */
  datatype View = View(
    data: Option<Entry>,
    scriptList: Option<seq<Entry>>,
    closeScriptList: Option<seq<Entry>>,
    uri: Option<string>,
    waiting: bool,
    okSensitive: bool,
    destroyed: bool,
    ran: seq<string>,
    callbacks: seq<string>)

  /** __popScript: with no list nothing happens; an exhausted list ends the queue, the window being
      destroyed unless close scripts are still pending; otherwise the entry popping stops at becomes
      the current one, its script started if it runs. */
  function Pop(v: View): (r: View)
    ensures r.closeScriptList == v.closeScriptList && r.uri == v.uri && r.callbacks == v.callbacks
    ensures r.okSensitive == v.okSensitive && (v.destroyed ==> r.destroyed)
    ensures v.scriptList.None? ==> r == v
  {
    if v.scriptList.None? then v
    else match Settle(v.scriptList.value, v.uri)
      case Exhausted =>
        v.(data := None, scriptList := None, waiting := false, destroyed := v.destroyed || v.closeScriptList.None?)
      case Waiting(rest, e) => v.(data := Some(e), scriptList := Some(rest))
      case Running(rest, e) => v.(data := Some(e), scriptList := Some(rest), ran := v.ran + [e.script])
  }

  /** __execScript: the current entry's script starts, or an empty one moves on. */
  function Exec(v: View): View
    requires v.data.Some?
  {
    if v.data.value.script != "" then v.(ran := v.ran + [v.data.value.script]) else Pop(v)
  }

  /** __javascript_finished: only an entry that is not asynchronous moves on when its script ends. */
  function ScriptFinished(v: View): View {
    if v.data.Some? && !v.data.value.isAsync then Pop(v) else v
  }

  function CallbackOf(e: Entry): seq<string> {
    if e.callback.Some? then [e.callback.value] else []
  }

  /** __handleScriptMessageDone: an asynchronous entry calls its callback and moves on. */
  function MessageDone(v: View): View {
    if v.data.Some? && v.data.value.isAsync then Pop(v.(callbacks := v.callbacks + CallbackOf(v.data.value))) else v
  }

  /** __handleScriptMessageOutOfTIme: an asynchronous entry moves on without its callback. */
  function MessageOutOfTime(v: View): View {
    if v.data.Some? && v.data.value.isAsync then Pop(v) else v
  }

  /** __loadFinishedCallback: a finished load of the URL the current entry waits for runs it. */
  function LoadFinished(v: View, uri: string): View {
    var w := v.(uri := Some(uri));
    if v.data.Some? && v.data.value.waitUrl == Some(uri) then Exec(w) else w
  }

  /** __on_stop_click: the queue and the current entry are dropped. */
  function Stop(v: View): View {
    v.(waiting := false, data := None, scriptList := None)
  }

  /** __close (OK): the close scripts, if any, become the queue, once. */
  function Close(v: View): View {
    if v.closeScriptList.Some? then
      Pop(v.(scriptList := v.closeScriptList, closeScriptList := None, okSensitive := false, waiting := true))
    else v
  }

  /** __defClose (cancel): the window goes. */
  function DefaultClose(v: View): View {
    v.(destroyed := true)
  }

  /** open: the lists are taken, the first entry popped, and then the site is loaded. */
  function Open(v: View, site: string, scripts: Option<seq<Entry>>, closeScripts: Option<seq<Entry>>): View {
    Pop(v.(scriptList := scripts, closeScriptList := closeScripts, waiting := true)).(uri := Some(site))
  }

  /** Each move through the queue leaves it shorter, or ends it. */
  lemma PopShortens(v: View)
    requires v.scriptList.Some?
    ensures Pop(v).scriptList.None? || |Pop(v).scriptList.value| < |v.scriptList.value|
  {
    SettleFromEnd(v.scriptList.value, v.uri);
  }

  /** The end of the queue: no current entry, no list, no waiting, and the window destroyed exactly
      when it was already or no close-script list is pending. */
  lemma QueueEnd(v: View)
    requires v.scriptList.Some? && Settle(v.scriptList.value, v.uri).Exhausted?
    ensures Pop(v).data.None? && Pop(v).scriptList.None? && !Pop(v).waiting
    ensures Pop(v).destroyed <==> v.destroyed || v.closeScriptList.None?
  {
  }

  /** A script that ends moves a plain entry on and leaves an asynchronous one waiting for its message;
      DONE and OUT_TIME move only asynchronous entries on, and only DONE calls the callback. */
  lemma Advancing(v: View)
    requires v.data.Some?
    ensures ScriptFinished(v) == if v.data.value.isAsync then v else Pop(v)
    ensures MessageDone(v).callbacks == v.callbacks + (if v.data.value.isAsync then CallbackOf(v.data.value) else [])
    ensures MessageOutOfTime(v).callbacks == v.callbacks && ScriptFinished(v).callbacks == v.callbacks
    ensures !v.data.value.isAsync ==> MessageDone(v) == v && MessageOutOfTime(v) == v
  {
  }

  /** An entry that waits for a URL runs on a finished load exactly when the load is of that URL. */
  lemma LoadRunsWaiting(v: View, uri: string)
    requires v.data.Some? && v.data.value.script != ""
    ensures LoadFinished(v, uri).ran == v.ran + [v.data.value.script] <==> v.data.value.waitUrl == Some(uri)
    ensures v.data.value.waitUrl != Some(uri) ==> LoadFinished(v, uri).ran == v.ran
  {
  }

  /** OK uses the close scripts once: afterwards none are pending, a second OK does nothing, and when
      they are done the window is destroyed. */
  lemma CloseOnce(v: View)
    ensures Close(v).closeScriptList.None?
    ensures Close(Close(v)) == Close(v)
    ensures v.closeScriptList.Some? && Settle(v.closeScriptList.value, v.uri).Exhausted? ==> Close(v).destroyed
    ensures forall w: View :: w.closeScriptList.None? && w.scriptList.Some? && Settle(w.scriptList.value, w.uri).Exhausted?
                      ==> Pop(w).destroyed
  {
  }

  /** Stop drops the queue, and then no script, message or load runs anything. */
  lemma StopIdles(v: View, uri: string)
    ensures Stop(v).data.None? && Stop(v).scriptList.None? && !Stop(v).waiting
    ensures ScriptFinished(Stop(v)) == Stop(v) && MessageDone(Stop(v)) == Stop(v) && MessageOutOfTime(Stop(v)) == Stop(v)
    ensures LoadFinished(Stop(v), uri).ran == v.ran && Pop(Stop(v)) == Stop(v)
  {
  }

  /** The Browser window's queue state and the effects it has had: the scripts started and the
      callbacks called, in order. */
  class Browser {
    var data: Option<Entry>
    var scriptList: Option<seq<Entry>>
    var closeScriptList: Option<seq<Entry>>
    var uri: Option<string>
    var waiting: bool
    var okSensitive: bool
    var destroyed: bool
    var ran: seq<string>
    var callbacks: seq<string>

    function State(): View
      reads this
    {
      View(data, scriptList, closeScriptList, uri, waiting, okSensitive, destroyed, ran, callbacks)
    }

    constructor ()
      ensures State() == View(None, None, None, None, false, true, false, [], [])
    {
      data, scriptList, closeScriptList, uri := None, None, None, None;
      waiting, okSensitive, destroyed := false, true, false;
      ran, callbacks := [], [];
    }

    /** __popScript and the __execScript it calls for a ready entry: entries are popped from the end
        until one waits for its URL or starts its script; an empty list ends the queue. */
    method PopScript()
      modifies this
      ensures State() == Pop(old(State()))
    {
      if scriptList.None? {
        return;
      }
      var list := scriptList.value;
      ghost var v := State();
      while |list| > 0
        invariant scriptList == Some(list) && Settle(list, uri) == Settle(v.scriptList.value, v.uri)
        invariant closeScriptList == v.closeScriptList && uri == v.uri && waiting == v.waiting
        invariant okSensitive == v.okSensitive && destroyed == v.destroyed && ran == v.ran && callbacks == v.callbacks
        decreases |list|
      {
        var e := list[|list| - 1];
        list := list[..|list| - 1];
        scriptList := Some(list);
        data := Some(e);
        if !Ready(e, uri) {
          return;
        }
        if e.script != "" {
          ran := ran + [e.script];
          return;
        }
      }
      data := None;
      scriptList := None;
      waiting := false;
      if closeScriptList.None? {
        destroyed := true;
      }
    }

    method ExecScript()
      requires data.Some?
      modifies this
      ensures State() == Exec(old(State()))
    {
      if data.value.script != "" {
        ran := ran + [data.value.script];
      } else {
        PopScript();
      }
    }

    method JavascriptFinished()
      modifies this
      ensures State() == ScriptFinished(old(State()))
    {
      if data.Some? && !data.value.isAsync {
        PopScript();
      }
    }

    method HandleScriptMessageDone()
      modifies this
      ensures State() == MessageDone(old(State()))
    {
      if data.Some? && data.value.isAsync {
        if data.value.callback.Some? {
          callbacks := callbacks + [data.value.callback.value];
        }
        PopScript();
      }
    }

    method HandleScriptMessageOutOfTime()
      modifies this
      ensures State() == MessageOutOfTime(old(State()))
    {
      if data.Some? && data.value.isAsync {
        PopScript();
      }
    }

    method LoadFinishedCallback(loaded: string)
      modifies this
      ensures State() == LoadFinished(old(State()), loaded)
    {
      uri := Some(loaded);
      if data.Some? && data.value.waitUrl.Some? && data.value.waitUrl.value == loaded {
        ExecScript();
      }
    }

    method OnStopClick()
      modifies this
      ensures State() == Stop(old(State()))
    {
      waiting := false;
      data := None;
      scriptList := None;
    }

    method CloseClicked()
      modifies this
      ensures State() == Close(old(State()))
    {
      if closeScriptList.Some? {
        scriptList := closeScriptList;
        closeScriptList := None;
        okSensitive := false;
        waiting := true;
        PopScript();
      }
    }

    method DefClose()
      modifies this
      ensures State() == DefaultClose(old(State()))
    {
      destroyed := true;
    }

    method OpenSite(site: string, scripts: Option<seq<Entry>>, closeScripts: Option<seq<Entry>>)
      modifies this
      ensures State() == Open(old(State()), site, scripts, closeScripts)
    {
      scriptList := scripts;
      closeScriptList := closeScripts;
      waiting := true;
      PopScript();
      uri := Some(site);
    }
  }
}
