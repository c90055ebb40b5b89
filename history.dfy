/**
 * The solve history: an append-only log of solved requests kept as JSON under
 * one key of the browser's local storage. Reading falls back to the empty log
 * when there is no browser window, when the storage throws, and when the key
 * is absent; saving reads the log, appends one record and writes the whole
 * log back; clearing removes the key. Every storage error is caught.
 */
module History {
  import opened Js
  import opened SmartSolve
  import opened LocalStorage

  /** One saved solve: the request that was sent, the solution, and when. */
  datatype HistoryItem = HistoryItem(request: SolveRequest, solution: SolveOutput, timestamp: string)

  /** `HISTORY_KEY` */
  const HistoryKey: string := "smartace_history"

  /**
   * The environment a storage call runs in: whether a browser window exists
   * (it does not during server rendering), and whether reading or writing the
   * storage throws (access denied, quota exceeded).
   */
  datatype Env = Env(hasWindow: bool, readFails: bool, writeFails: bool)

  /** A browser whose storage works. */
  predicate Works(env: Env) {
    env.hasWindow && !env.readFails && !env.writeFails
  }

  /**
   * `getHistory()` on storage contents `data`. A text value under the key is
   * not a log this program wrote: the empty string is falsy, and any other
   * text is taken as JSON that fails to parse, both giving the empty log.
   */
  function ReadHistory(data: map<string, Stored<HistoryItem>>, env: Env): (h: seq<HistoryItem>)
    ensures !env.hasWindow || env.readFails || HistoryKey !in data ==> h == []
    ensures env.hasWindow && !env.readFails && HistoryKey in data && data[HistoryKey].Log?
      ==> h == data[HistoryKey].entries
    ensures env.hasWindow && !env.readFails && HistoryKey in data && data[HistoryKey].Text? ==> h == []
  {
    if !env.hasWindow || env.readFails then []
    else if HistoryKey in data then
      match data[HistoryKey]
      case Log(entries) => entries
      case Text(_) => []
    else []
  }

  /**
   * The storage after `saveHistory(item)`: unchanged without a window or
   * when the write throws; otherwise the log as read, plus `item`, is written
   * back under the key, and no other key changes.
   */
  function AfterSave(data: map<string, Stored<HistoryItem>>, env: Env, item: HistoryItem)
    : (d: map<string, Stored<HistoryItem>>)
    ensures !env.hasWindow || env.writeFails ==> d == data
    ensures env.hasWindow && !env.writeFails ==> HistoryKey in d && d[HistoryKey] == Log(ReadHistory(data, env) + [item])
    ensures forall k | k != HistoryKey :: (k in d <==> k in data) && (k in d ==> d[k] == data[k])
  {
    if !env.hasWindow || env.writeFails then data
    else data[HistoryKey := Log(ReadHistory(data, env) + [item])]
  }

  /** The storage after `clearHistory()`: the key is gone unless there is no window or the removal throws. */
  function AfterClear(data: map<string, Stored<HistoryItem>>, env: Env): (d: map<string, Stored<HistoryItem>>)
    ensures !env.hasWindow || env.writeFails ==> d == data
    ensures env.hasWindow && !env.writeFails ==> HistoryKey !in d
    ensures forall k | k != HistoryKey :: (k in d <==> k in data) && (k in d ==> d[k] == data[k])
  {
    if !env.hasWindow || env.writeFails then data else data - {HistoryKey}
  }

  /** `saveHistory(item)` on the browser's storage. */
  method SaveHistory(store: Store<HistoryItem>, env: Env, item: HistoryItem)
    modifies store
    ensures store.data == AfterSave(old(store.data), env, item)
  {
    if !env.hasWindow {
      return;
    }
    var history := ReadHistory(store.data, env);
    history := history + [item];
    if !env.writeFails {
      store.SetItem(HistoryKey, Log(history));
    }
  }

  /** `clearHistory()` on the browser's storage. */
  method ClearHistory(store: Store<HistoryItem>, env: Env)
    modifies store
    ensures store.data == AfterClear(old(store.data), env)
  {
    if !env.hasWindow {
      return;
    }
    if !env.writeFails {
      store.RemoveItem(HistoryKey);
    }
  }

  /** With working storage, a save appends exactly the saved record to what a later read returns. */
  lemma SaveAppends(data: map<string, Stored<HistoryItem>>, env: Env, item: HistoryItem)
    requires Works(env)
    ensures ReadHistory(AfterSave(data, env, item), env) == ReadHistory(data, env) + [item]
    ensures |ReadHistory(AfterSave(data, env, item), env)| == |ReadHistory(data, env)| + 1
    ensures ReadHistory(AfterSave(data, env, item), env)[|ReadHistory(data, env)|] == item
  {
  }

  /** Saves in sequence, each in the same environment. */
  function SaveAll(data: map<string, Stored<HistoryItem>>, env: Env, items: seq<HistoryItem>)
    : map<string, Stored<HistoryItem>>
    decreases |items|
  {
    if items == [] then data else SaveAll(AfterSave(data, env, items[0]), env, items[1..])
  }

  /** The log is append-only and in save order: successive saves add their records, in order, at the end. */
  lemma {:induction false} SaveAllAppends(data: map<string, Stored<HistoryItem>>, env: Env, items: seq<HistoryItem>)
    requires Works(env)
    ensures ReadHistory(SaveAll(data, env, items), env) == ReadHistory(data, env) + items
    decreases |items|
  {
    if items != [] {
      SaveAppends(data, env, items[0]);
      SaveAllAppends(AfterSave(data, env, items[0]), env, items[1..]);
      assert [items[0]] + items[1..] == items;
    }
  }

  /** There is no de-duplication: saving the same record twice leaves two copies of it. */
  lemma SaveTwiceKeepsBoth(data: map<string, Stored<HistoryItem>>, env: Env, item: HistoryItem)
    requires Works(env)
    ensures ReadHistory(SaveAll(data, env, [item, item]), env) == ReadHistory(data, env) + [item, item]
  {
    SaveAllAppends(data, env, [item, item]);
  }

  /** After a clear with working storage, the log reads as empty, and saving starts a new log of one record. */
  lemma ClearEmpties(data: map<string, Stored<HistoryItem>>, env: Env, item: HistoryItem)
    requires Works(env)
    ensures ReadHistory(AfterClear(data, env), env) == []
    ensures ReadHistory(AfterSave(AfterClear(data, env), env, item), env) == [item]
  {
  }

  /**
   * A read that throws during a save is caught inside the read, so the save
   * goes on from the empty log: when the write succeeds, every earlier record
   * is overwritten and only the new one remains.
   */
  lemma FailedReadDropsLog(data: map<string, Stored<HistoryItem>>, env: Env, item: HistoryItem)
    requires env.hasWindow && env.readFails && !env.writeFails
    ensures ReadHistory(AfterSave(data, env, item), env.(readFails := false)) == [item]
  {
  }
}
