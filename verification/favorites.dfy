/**
 * `favoriteDogIds`: a JavaScript `Set<string>`, which keeps its elements in
 * insertion order. It is modelled as a sequence without duplicates; that
 * order is what `Array.from` hands to the `/dogs/match` request.
 */
module Favorites {

  /** No element occurs twice. */
  predicate NoDuplicates(s: seq<string>) {
    s == [] || (s[0] !in s[1..] && NoDuplicates(s[1..]))
  }

  /** `Set.prototype.add` of a new element keeps the elements distinct. */
  lemma {:induction false} NoDuplicatesAppend(s: seq<string>, x: string)
    requires NoDuplicates(s) && x !in s
    ensures NoDuplicates(s + [x])
    decreases |s|
  {
    if s != [] {
      assert (s + [x])[1..] == s[1..] + [x];
      NoDuplicatesAppend(s[1..], x);
    }
  }

  /** `Set.prototype.delete`: every other element stays (in its order, by `WithoutKeepsOrder`). */
  function Without(s: seq<string>, id: string): (r: seq<string>)
    ensures forall x :: x in r <==> x in s && x != id
    ensures NoDuplicates(s) ==> NoDuplicates(r)
    ensures NoDuplicates(s) && id in s ==> |r| == |s| - 1
    ensures id !in s ==> r == s
    decreases |s|
  {
    if s == [] then []
    else
      var rest := Without(s[1..], id);
      assert NoDuplicates(s) ==> s[0] !in s[1..];
      if s[0] == id then rest else [s[0]] + rest
  }

  /**
   * Deleting a present id from a set removes that one position and keeps
   * every other element in its insertion order.
   */
  lemma {:induction false} WithoutKeepsOrder(s: seq<string>, id: string, k: nat)
    requires NoDuplicates(s) && k < |s| && s[k] == id
    ensures Without(s, id) == s[..k] + s[k + 1..]
    decreases k
  {
    if k == 0 {
      assert s[1..] == s[..0] + s[1..];
      assert Without(s, id) == Without(s[1..], id);
    } else {
      assert s[0] != id by {
        assert s[k] == s[1..][k - 1];
      }
      assert Without(s, id) == [s[0]] + Without(s[1..], id);
      WithoutKeepsOrder(s[1..], id, k - 1);
      assert s[..k] == [s[0]] + s[1..][..k - 1];
      assert s[k + 1..] == s[1..][k..];
    }
  }

  /**
   * The updater of `handleToggleFavorite`: a copy of the set with `id`
   * deleted when it is present and added (at the end) when it is not.
   */
  function Toggled(favorites: seq<string>, id: string): (r: seq<string>)
    ensures id in r <==> id !in favorites
    ensures forall x :: x != id ==> (x in r <==> x in favorites)
    ensures NoDuplicates(favorites) ==> NoDuplicates(r)
    ensures NoDuplicates(favorites) ==> |r| == if id in favorites then |favorites| - 1 else |favorites| + 1
  {
    if id in favorites then Without(favorites, id)
    else
      assert NoDuplicates(favorites) ==> NoDuplicates(favorites + [id]) by {
        if NoDuplicates(favorites) {
          NoDuplicatesAppend(favorites, id);
        }
      }
      favorites + [id]
  }

  lemma {:induction false} WithoutLastAdded(s: seq<string>, id: string)
    requires id !in s
    ensures Without(s + [id], id) == s
    decreases |s|
  {
    if s == [] {
      assert Without([id], id) == [] + Without([], id);
    } else {
      assert (s + [id])[1..] == s[1..] + [id];
      WithoutLastAdded(s[1..], id);
    }
  }

  /**
   * Toggling the same id twice restores the set: an id that was absent
   * leaves the sequence exactly as it was; an id that was present comes back
   * at the end, since re-adding it to a JavaScript Set appends it.
   */
  lemma ToggleTwice(favorites: seq<string>, id: string)
    requires NoDuplicates(favorites)
    ensures forall x :: x in Toggled(Toggled(favorites, id), id) <==> x in favorites
    ensures id !in favorites ==> Toggled(Toggled(favorites, id), id) == favorites
    ensures id in favorites ==> Toggled(Toggled(favorites, id), id) == Without(favorites, id) + [id]
  {
    if id !in favorites {
      WithoutLastAdded(favorites, id);
    }
  }
}
