/**
 * The workspace page (app/workspace/page.tsx): the guard that sends a visitor
 * without a session back to the start page, and the online counter fed by the
 * presence channel. Every connection is tracked under its user's name, so the
 * presence state is a map from names to the metadata of that name's
 * connections.
 */
module Presence {
  import opened Common

  /** The presence state as the channel reports it: one entry per key, holding the `online_at` of each connection. */
  type PresenceState = map<string, seq<string>>

  /** A tracked connection: the presence key (the user's name) and its `online_at` stamp. */
  datatype Connection = Connection(key: string, onlineAt: string)

  /** The stamps of the connections tracked under `key`, in order. */
  function StampsOf(conns: seq<Connection>, key: string): seq<string>
  {
    if conns == [] then []
    else (if conns[0].key == key then [conns[0].onlineAt] else []) + StampsOf(conns[1..], key)
  }

  function Keys(conns: seq<Connection>): set<string> {
    set c | c in conns :: c.key
  }

  /** The state the channel reports for a set of tracked connections. */
  function StateOf(conns: seq<Connection>): PresenceState {
    map k | k in Keys(conns) :: StampsOf(conns, k)
  }

  /** `count > 0 ? count : 1` over the number of keys. */
  function OnlineCount(state: PresenceState): (r: nat)
    ensures r >= 1
    ensures |state.Keys| > 0 ==> r == |state.Keys|
    ensures |state.Keys| == 0 ==> r == 1
  {
    var count := |state.Keys|;
    if count > 0 then count else 1
  }

  /** The counter is the number of distinct names online, and 1 when the state is empty. */
  lemma CountsDistinctNames(conns: seq<Connection>)
    ensures StateOf(conns).Keys == Keys(conns)
    ensures OnlineCount(StateOf(conns)) == if conns == [] then 1 else |Keys(conns)|
  {
    if conns != [] {
      assert conns[0].key in Keys(conns);
    }
  }

  /** A second connection under a name already online does not change the count. */
  lemma SameNameCountsOnce(conns: seq<Connection>, c: Connection)
    requires exists d :: d in conns && d.key == c.key
    ensures OnlineCount(StateOf(conns + [c])) == OnlineCount(StateOf(conns))
  {
    assert Keys(conns + [c]) == Keys(conns);
    CountsDistinctNames(conns);
    CountsDistinctNames(conns + [c]);
  }

  /** A connection under a name not yet online makes the count the old number of names plus one. */
  lemma NewNameCountsOneMore(conns: seq<Connection>, c: Connection)
    requires forall d :: d in conns ==> d.key != c.key
    ensures OnlineCount(StateOf(conns + [c])) == |Keys(conns)| + 1
  {
    var old_keys, new_keys := Keys(conns), Keys(conns + [c]);
    assert new_keys == old_keys + {c.key};
    assert c.key !in old_keys;
    assert |new_keys| == |old_keys| + 1;
    CountsDistinctNames(conns + [c]);
  }

  // ---------------------------------------------------------------------------
  // The session guard

  /** What the page renders. */
  datatype Screen = Spinner | Blank | Page

  function ScreenOf(isLoading: bool, user: Option<User>): Screen {
    if isLoading then Spinner else if user.None? then Blank else Page
  }

  /** The effect that navigates to '/'. */
  predicate Redirects(isLoading: bool, user: Option<User>) {
    !isLoading && !user.Some?
  }

  /** The page navigates away exactly when it renders nothing; the workspace shows only with a user. */
  lemma RedirectIffBlank(isLoading: bool, user: Option<User>)
    ensures Redirects(isLoading, user) <==> ScreenOf(isLoading, user) == Blank
    ensures ScreenOf(isLoading, user) == Page ==> user.Some? && !Redirects(isLoading, user)
  {
  }

  // ---------------------------------------------------------------------------
  // The page's state

  class Workspace {
    var onlineCount: nat
    /** The key this page is tracked under while its presence channel is open. */
    var trackedAs: Option<string>

    predicate Valid()
      reads this
    {
      onlineCount >= 1
    }

    constructor ()
      ensures onlineCount == 1 && trackedAs.None? && Valid()
    {
      onlineCount := 1;
      trackedAs := None;
    }

    /** The presence effect: with a user, open the channel keyed by the user's name; without one, do nothing. */
    method Subscribe(user: Option<User>)
      requires Valid()
      modifies this`trackedAs
      ensures Valid()
      ensures trackedAs == if user.Some? then Some(user.value.name) else old(trackedAs)
    {
      if user.Some? {
        trackedAs := Some(user.value.name);
      }
    }

    /** The effect's cleanup removes the channel. */
    method Unsubscribe()
      requires Valid()
      modifies this`trackedAs
      ensures Valid() && trackedAs.None?
    {
      trackedAs := None;
    }

    /** A `sync` event, which arrives only while the channel is open. */
    method Sync(state: PresenceState)
      requires Valid()
      modifies this`onlineCount
      ensures Valid()
      ensures onlineCount == if trackedAs.Some? then OnlineCount(state) else old(onlineCount)
    {
      if trackedAs.Some? {
        var count := |state.Keys|;
        onlineCount := if count > 0 then count else 1;
      }
    }
  }
}
