/** store/useFireworkStore.ts: the list of saved firework placements. The
    state cell `savedFireworks` is replaced on every action; the new lists
    are built by appending and by filtering. */
module FireworkStore {
  import FireworkConfig

  /** A saved placement: its id, the firework type and where it goes. */
  datatype SavedFirework = SavedFirework(id: string, fireworkType: FireworkConfig.FireworkType, x: real, y: real)

  /** No entry of `s` has the id `id`. */
  predicate Absent(s: seq<SavedFirework>, id: string) {
    forall f :: f in s ==> f.id != id
  }

  /** The saved list with every entry whose id is `id` filtered out, the
      others kept in order. */
  function Without(s: seq<SavedFirework>, id: string): (r: seq<SavedFirework>)
    ensures |r| <= |s|
  {
    if s == [] then []
    else if s[0].id == id then Without(s[1..], id)
    else [s[0]] + Without(s[1..], id)
  }

  /** An entry is left after the filter exactly when it was in the list and
      its id differs from `id`. */
  lemma {:induction false} WithoutMembers(s: seq<SavedFirework>, id: string)
    ensures forall f :: f in Without(s, id) <==> f in s && f.id != id
    decreases |s|
  {
    if s != [] {
      WithoutMembers(s[1..], id);
      assert s == [s[0]] + s[1..];
    }
  }

  /** Filtering a list is filtering its two halves: the entries that stay
      keep their relative order. */
  lemma {:induction false} WithoutAppend(a: seq<SavedFirework>, b: seq<SavedFirework>, id: string)
    ensures Without(a + b, id) == Without(a, id) + Without(b, id)
    decreases |a|
  {
    if a != [] {
      var ab := a + b;
      assert ab[0] == a[0] && ab[1..] == a[1..] + b;
      WithoutAppend(a[1..], b, id);
      var rest, tail := Without(a[1..], id), Without(b, id);
      if a[0].id == id {
        assert Without(ab, id) == rest + tail;
      } else {
        assert Without(ab, id) == [a[0]] + (rest + tail);
        assert [a[0]] + (rest + tail) == ([a[0]] + rest) + tail;
      }
    } else {
      assert a + b == b;
    }
  }

  /** Removing an id no entry has leaves the list as it was. */
  lemma {:induction false} WithoutAbsent(s: seq<SavedFirework>, id: string)
    requires Absent(s, id)
    ensures Without(s, id) == s
    decreases |s|
  {
    if s != [] {
      assert s[0] in s;
      assert forall f :: f in s[1..] ==> f in s;
      WithoutAbsent(s[1..], id);
    }
  }

  /** Removing an id twice is removing it once. */
  lemma {:induction false} WithoutTwice(s: seq<SavedFirework>, id: string)
    ensures Without(Without(s, id), id) == Without(s, id)
  {
    WithoutMembers(s, id);
    WithoutAbsent(Without(s, id), id);
  }

  /** Adding an entry whose id is new, then removing that id, gives back the
      list before the add. */
  lemma AddThenRemove(s: seq<SavedFirework>, f: SavedFirework)
    requires Absent(s, f.id)
    ensures Without(s + [f], f.id) == s
  {
    WithoutAppend(s, [f], f.id);
    WithoutAbsent(s, f.id);
    assert Without([f], f.id) == [];
  }

  /** The id `addFirework` gives an entry: the prefix `firework-`, the clock
      reading, a dash and the random number. */
  function FireworkId(now: string, random: string): (id: string)
    ensures |id| == 10 + |now| + |random|
    ensures id[..9] == "firework-" && id[9..9 + |now|] == now
    ensures id[9 + |now|] == '-' && id[10 + |now|..] == random
  {
    "firework-" + now + "-" + random
  }

  /** The store's state cell. */
  class Store {
    var savedFireworks: seq<SavedFirework>

    /** The store starts empty. */
    constructor ()
      ensures savedFireworks == []
    {
      savedFireworks := [];
    }

    /** `addFirework(type, x, y)`: one entry at the end, the others as they
        were. Its id is `firework-<now>-<random>`, where `now` and `random`
        stand for the decimal renderings of the clock and of a random number,
        which are parameters here. */
    method AddFirework(fireworkType: FireworkConfig.FireworkType, x: real, y: real, now: string, random: string)
      modifies this
      ensures savedFireworks == old(savedFireworks) + [SavedFirework(FireworkId(now, random), fireworkType, x, y)]
    {
      var firework := SavedFirework(FireworkId(now, random), fireworkType, x, y);
      savedFireworks := savedFireworks + [firework];
    }

    /** `removeFirework(id)`: every entry with that id is gone. */
    method RemoveFirework(id: string)
      modifies this
      ensures savedFireworks == Without(old(savedFireworks), id)
    {
      savedFireworks := Without(savedFireworks, id);
    }

    /** `clearAll()` */
    method ClearAll()
      modifies this
      ensures savedFireworks == []
    {
      savedFireworks := [];
    }
  }
}
