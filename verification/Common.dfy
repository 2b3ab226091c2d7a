/** What every module shares. */
module Common {

  datatype Option<+T> = None | Some(value: T)

  /** The two roles a stored message may have (core/memory.py:36). */
  datatype Role = User | Assistant

  /** One line of a conversation as it is remembered (core/memory.py:39-49). */
  datatype StoredMessage = StoredMessage(role: Role, content: string)

  /** The last `n` elements, or all of them when there are fewer. */
  function LastOf<T>(n: nat, s: seq<T>): (r: seq<T>)
    ensures |r| <= n && |r| <= |s| && r == s[|s| - |r|..]
    ensures |r| == n || r == s
  {
    if |s| <= n then s else s[|s| - n..]
  }

  lemma Concat<T>(a: seq<T>, b: seq<T>, c: seq<T>)
    ensures (a + b) + c == a + (b + c)
  {
  }

  lemma ConcatNil<T>(s: seq<T>)
    ensures s + [] == s && [] + s == s
  {
  }

  /** The concatenation of all the parts, in order. */
  function Flatten<T>(parts: seq<seq<T>>): seq<T> {
    if parts == [] then [] else parts[0] + Flatten(parts[1..])
  }

  lemma {:induction false} FlattenPush<T>(parts: seq<seq<T>>, last: seq<T>)
    ensures Flatten(parts + [last]) == Flatten(parts) + last
  {
    if parts == [] {
      assert [last][1..] == [];
    } else {
      FlattenPush(parts[1..], last);
      assert (parts + [last])[1..] == parts[1..] + [last];
    }
  }

  lemma FlattenCons<T>(first: seq<T>, rest: seq<seq<T>>)
    ensures Flatten([first] + rest) == first + Flatten(rest)
  {
  }

  /** `small` is `big` with some elements left out, in the same order. */
  predicate InOrder<T(==)>(small: seq<T>, big: seq<T>) {
    if small == [] then true
    else if big == [] then false
    else if small[|small| - 1] == big[|big| - 1] && InOrder(small[..|small| - 1], big[..|big| - 1]) then true
    else InOrder(small, big[..|big| - 1])
  }
}
