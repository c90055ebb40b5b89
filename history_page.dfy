/**
 * The history page: on mount it loads the stored log and reverses it in
 * place, so the newest solve comes first; the clear button empties both the
 * stored log and the list shown, and is disabled while the list is empty.
 */
module HistoryPage {
  import opened Js
  import opened LocalStorage
  import opened History

  /** The sequence read back to front. */
  function Reverse<T>(s: seq<T>): (r: seq<T>)
    ensures |r| == |s|
    ensures forall i | 0 <= i < |s| :: r[i] == s[|s| - 1 - i]
  {
    if s == [] then [] else [s[|s| - 1]] + Reverse(s[..|s| - 1])
  }

  /** The record saved last is shown first, the one saved first is shown last. */
  lemma NewestFirst<T>(s: seq<T>, x: T)
    ensures Reverse(s + [x]) == [x] + Reverse(s)
    ensures s != [] ==> Reverse(s)[|s| - 1] == s[0]
  {
  }

  /** `Array.prototype.reverse`: swaps mirrored slots from both ends towards the middle. */
  method ReverseInPlace<T>(a: array<T>)
    modifies a
    ensures a[..] == Reverse(old(a[..]))
  {
    var n := a.Length;
    var i := 0;
    while i < n / 2
      invariant 0 <= i <= n / 2
      invariant forall k | 0 <= k < i :: a[k] == old(a[n - 1 - k]) && a[n - 1 - k] == old(a[k])
      invariant forall k | i <= k < n - i :: a[k] == old(a[k])
    {
      a[i], a[n - 1 - i] := a[n - 1 - i], a[i];
      i := i + 1;
    }
  }

  /** The React key of the list entry at `index`: the timestamp, a dash, the index in decimal. */
  function ListKey(item: HistoryItem, index: nat): string {
    item.timestamp + "-" + NatToString(index)
  }

  function ListKeys(items: seq<HistoryItem>): (keys: seq<string>)
    ensures |keys| == |items|
    ensures forall i | 0 <= i < |items| :: keys[i] == ListKey(items[i], i)
  {
    seq(|items|, i requires 0 <= i < |items| => ListKey(items[i], i))
  }

  /** The characters after the last dash (all of `s` when it has none). */
  function AfterLastDash(s: string): (r: string)
    ensures '-' !in r
  {
    if s == [] || s[|s| - 1] == '-' then [] else AfterLastDash(s[..|s| - 1]) + [s[|s| - 1]]
  }

  /** A dash followed by digits ends in exactly those digits, whatever precedes the dash. */
  lemma {:induction false} AfterLastDashOfDigits(prefix: string, digits: string)
    requires AllDigits(digits)
    ensures AfterLastDash(prefix + "-" + digits) == digits
    decreases |digits|
  {
    var s := prefix + "-" + digits;
    if digits == [] {
      assert s[|s| - 1] == '-';
    } else {
      var n := |digits| - 1;
      assert IsDigit(digits[n]);
      assert s[..|s| - 1] == prefix + "-" + digits[..n];
      AfterLastDashOfDigits(prefix, digits[..n]);
    }
  }

  /**
   * Keys within one rendering are pairwise distinct, even for equal
   * timestamps and timestamps that contain dashes: the index can be read back
   * from after the last dash.
   */
  lemma ListKeysDistinct(items: seq<HistoryItem>, i: nat, j: nat)
    requires i < |items| && j < |items| && i != j
    ensures ListKeys(items)[i] != ListKeys(items)[j]
  {
    if ListKeys(items)[i] == ListKeys(items)[j] {
      AfterLastDashOfDigits(items[i].timestamp, NatToString(i));
      AfterLastDashOfDigits(items[j].timestamp, NatToString(j));
      NatToStringInjective(i, j);
    }
  }

  class HistoryPage {
    var history: seq<HistoryItem>
    var loading: bool

    constructor ()
      ensures history == [] && loading
    {
      history, loading := [], true;
    }

    /** The clear button is disabled exactly when nothing is listed. */
    function ClearDisabled(): (disabled: bool)
      reads this
      ensures disabled <==> history == []
    {
      |history| == 0
    }

    /** The mount effect: the stored log, newest first, and loading over. */
    method Load(store: Store<HistoryItem>, env: Env)
      modifies this
      ensures history == Reverse(ReadHistory(store.data, env))
      ensures !loading
      ensures ClearDisabled() <==> ReadHistory(store.data, env) == []
    {
      var loaded := ReadHistory(store.data, env);
      var a := new HistoryItem[|loaded|](i requires 0 <= i < |loaded| => loaded[i]);
      assert a[..] == loaded;
      ReverseInPlace(a);
      history := a[..];
      loading := false;
    }

    /** `handleClearHistory`: the stored log is cleared, and the list emptied whether or not that succeeded. */
    method HandleClear(store: Store<HistoryItem>, env: Env)
      modifies this, store
      ensures store.data == AfterClear(old(store.data), env)
      ensures history == [] && ClearDisabled()
      ensures loading == old(loading)
    {
      ClearHistory(store, env);
      history := [];
    }
  }

  /** After a clear in a working browser, a fresh page lists nothing either. */
  method ClearThenReload(store: Store<HistoryItem>, env: Env) returns (again: HistoryPage)
    requires Works(env)
    modifies store
    ensures HistoryKey !in store.data
    ensures again.history == [] && again.ClearDisabled() && !again.loading
  {
    var page := new HistoryPage();
    page.HandleClear(store, env);
    again := new HistoryPage();
    again.Load(store, env);
  }
}
