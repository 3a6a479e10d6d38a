/**
 * Call sequences of the watcher and the commands on a fresh store, verified from the contracts of
 * Store.ClipboardState alone.
 */
module Scenarios {
  import opened Wrappers
  import opened Items
  import opened Classifier
  import opened Store

  /** The clipboard holds plain text `s` and nothing else. */
  function TextObservation(s: string): (obs: Observation)
    ensures Classify(obs) == Capture(s, Text, None, None, None)
  {
    Observation(false, false, false, Failure(""), Failure(""), Failure(""), Failure(""), Success(s), 0)
  }

  /** The image folder is there and the notification goes out. */
  function ReadyEnv(): (env: UpdateEnv)
    ensures PrepareImagesDir(env).Success? && env.emit.Success?
  {
    UpdateEnv(Success(()), true, Success(()), Success(()))
  }

  /** The watcher sees plain text `s` that differs from the most recent insert, and inserts it. */
  method InsertText(store: ClipboardState, s: string, now: nat) returns (r: Result<bool, ClipboardError>)
    requires store.Valid()
    requires store.lastContentHash != Some([s])
    modifies store
    ensures store.Valid()
    ensures r == Success(true)
    ensures store.history == Pushed(old(store.history), ToItem(Capture(s, Text, None, None, None), old(store.nextId), now), store.maxHistorySize)
    ensures store.nextId == old(store.nextId) + 1 && store.lastContentHash == Some([s])
    ensures store.maxHistorySize == old(store.maxHistorySize)
  {
    assert CalculateHash(ToItem(Capture(s, Text, None, None, None), store.nextId, now)) == [s];
    r := store.HandleClipboardUpdate(ReadyEnv(), TextObservation(s), now);
  }

  /** With room for three, copying "a", "b", "c", "d" keeps "b", "c", "d" with ids 1, 2, 3. */
  method CapacityThreeKeepsNewest() returns (contents: seq<string>, ids: seq<nat>)
    ensures contents == ["b", "c", "d"] && ids == [1, 2, 3]
  {
    var store := new ClipboardState();
    store.SetMaxHistorySize(3);
    ghost var a := ToItem(Capture("a", Text, None, None, None), 0, 10);
    ghost var b := ToItem(Capture("b", Text, None, None, None), 1, 11);
    ghost var c := ToItem(Capture("c", Text, None, None, None), 2, 12);
    ghost var d := ToItem(Capture("d", Text, None, None, None), 3, 13);
    var r := InsertText(store, "a", 10);
    assert store.history == [a];
    r := InsertText(store, "b", 11);
    assert store.history == [a, b];
    r := InsertText(store, "c", 12);
    assert store.history == [a, b, c];
    r := InsertText(store, "d", 13);
    assert store.history == [b, c, d];
    var h := store.GetHistory();
    contents := [h[0].content, h[1].content, h[2].content];
    ids := [h[0].id, h[1].id, h[2].id];
  }

  /** Copying "x" twice in a row stores one entry; the second update reports no change. */
  method RepeatedTextStoredOnce() returns (first: Result<bool, ClipboardError>, second: Result<bool, ClipboardError>, count: nat)
    ensures first == Success(true) && second == Success(false) && count == 1
  {
    var store := new ClipboardState();
    first := store.HandleClipboardUpdate(ReadyEnv(), TextObservation("x"), 10);
    second := store.HandleClipboardUpdate(ReadyEnv(), TextObservation("x"), 20);
    var h := store.GetHistory();
    count := |h|;
  }

  /** Only the most recent insert is compared: going back to older content inserts it again. */
  method RevertToOlderStoredAgain() returns (contents: seq<string>)
    ensures contents == ["a", "b", "a"]
  {
    var store := new ClipboardState();
    var r := InsertText(store, "a", 10);
    r := InsertText(store, "b", 11);
    r := InsertText(store, "a", 12);
    var h := store.GetHistory();
    assert |h| == 3;
    contents := [h[0].content, h[1].content, h[2].content];
  }

  /** With the maximum at 0, an accepted insert leaves the history empty. */
  method ZeroCapacityKeepsNothing() returns (accepted: Result<bool, ClipboardError>, count: nat)
    ensures accepted == Success(true) && count == 0
  {
    var store := new ClipboardState();
    store.SetMaxHistorySize(0);
    accepted := store.HandleClipboardUpdate(ReadyEnv(), TextObservation("x"), 10);
    var h := store.GetHistory();
    count := |h|;
  }

  /** After a clear, the same content as the last insert is accepted again and gets id 0. */
  method ClearResetsIds() returns (accepted: Result<bool, ClipboardError>, ids: seq<nat>)
    ensures accepted == Success(true) && ids == [0]
  {
    var store := new ClipboardState();
    var r := InsertText(store, "a", 10);
    r := InsertText(store, "b", 11);
    store.ClearHistory();
    accepted := InsertText(store, "b", 12);
    var h := store.GetHistory();
    assert |h| == 1;
    ids := [h[0].id];
  }
}
