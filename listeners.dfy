/**
 * The listener registry both lobby-service copies keep: `lobbyListeners`, a
 * `Map` from a lobby code to the `Set` of its callbacks. A callback is
 * represented by an identity chosen by the caller; running callbacks is not
 * part of the model. These are the map updates `subscribeToLobby` and its
 * unsubscribe function perform.
 */
module Listeners {

  type ListenerId = nat

  type Registry = map<string, set<ListenerId>>

  /** No code keeps an empty set: the unsubscribe function deletes a set once it empties. */
  predicate WellFormed(m: Registry) {
    forall code :: code in m ==> m[code] != {}
  }

  /** `lobbyListeners.get(code) || new Set()`, then `add(id)` and `set(code, ...)`. */
  function Added(m: Registry, code: string, id: ListenerId): (r: Registry)
    ensures WellFormed(m) ==> WellFormed(r)
    ensures r.Keys == m.Keys + {code}
    ensures id in r[code]
    ensures code in m ==> r[code] == m[code] + {id}
    ensures code !in m ==> r[code] == {id}
  {
    m[code := (if code in m then m[code] else {}) + {id}]
  }

  /** The unsubscribe closure: nothing if the code has no set; otherwise delete `id` and drop the set if it is now empty. */
  function Removed(m: Registry, code: string, id: ListenerId): (r: Registry)
    ensures WellFormed(m) ==> WellFormed(r)
    ensures code in r ==> id !in r[code]
    ensures code in r ==> code in m && r[code] == m[code] - {id}
    ensures code in m && code !in r ==> m[code] <= {id}
    ensures forall c :: c in r ==> c in m
  {
    if code !in m then m
    else if m[code] - {id} == {} then map c | c in m && c != code :: m[c]
    else m[code := m[code] - {id}]
  }

  /** Unsubscribing right after subscribing a new callback gives back the registry as it was. */
  lemma RemovedAfterAdded(m: Registry, code: string, id: ListenerId)
    requires WellFormed(m)
    requires code !in m || id !in m[code]
    ensures Removed(Added(m, code, id), code, id) == m
  {
    var a := Added(m, code, id);
    if code in m {
      assert a[code] - {id} == m[code];
      assert m[code := m[code]] == m;
    } else {
      assert a[code] - {id} == {};
      assert (map c | c in a && c != code :: a[c]) == m;
    }
  }

  /** The unsubscribe function is idempotent: a second call changes nothing. */
  lemma RemovedIdempotent(m: Registry, code: string, id: ListenerId)
    ensures Removed(Removed(m, code, id), code, id) == Removed(m, code, id)
  {
    var r := Removed(m, code, id);
    if code in r {
      assert r[code] - {id} == r[code];
      assert r[code := r[code]] == r;
    }
  }

  /** Other codes' listener sets are untouched by a subscribe or an unsubscribe. */
  lemma OtherCodesUntouched(m: Registry, code: string, other: string, id: ListenerId)
    requires other != code
    ensures other in Added(m, code, id) <==> other in m
    ensures other in m ==> Added(m, code, id)[other] == m[other]
    ensures other in Removed(m, code, id) <==> other in m
    ensures other in m ==> Removed(m, code, id)[other] == m[other]
  {
  }
}
