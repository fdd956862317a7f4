/** The client's bounded memory of message ids, by which it drops what catch-up and live deliver twice. */
module DedupWindow {

  const WINDOW: nat := 2000

  /** The remembered ids, oldest first, and all ids let through so far. */
  datatype Seen = Seen(window: seq<string>, accepted: seq<string>)

  function Trimmed(window: seq<string>): seq<string> {
    if |window| > WINDOW then window[1..] else window
  }

  /** An id is let through unless it is remembered; empty ids always are, and are not remembered. */
  function Offered(s: Seen, id: string): Seen {
    if id == "" then s.(accepted := s.accepted + [id])
    else if id in s.window then s
    else Seen(Trimmed(s.window + [id]), s.accepted + [id])
  }

  function Run(ids: seq<string>): Seen {
    if ids == [] then Seen([], []) else Offered(Run(ids[..|ids| - 1]), ids[|ids| - 1])
  }

  function NonEmpty(ids: seq<string>): seq<string> {
    if ids == [] then []
    else NonEmpty(ids[..|ids| - 1]) + if ids[|ids| - 1] == "" then [] else [ids[|ids| - 1]]
  }

  /** The last n of a sequence, or all of it. */
  function Last(ids: seq<string>, n: nat): seq<string> {
    if |ids| <= n then ids else ids[|ids| - n..]
  }

  predicate Distinct(ids: seq<string>) {
    forall i, j :: 0 <= i < j < |ids| ==> ids[i] != ids[j]
  }

  lemma NonEmptySnoc(ids: seq<string>, id: string)
    ensures NonEmpty(ids + [id]) == NonEmpty(ids) + if id == "" then [] else [id]
  {
    assert (ids + [id])[..|ids|] == ids;
  }

  lemma LastSnoc(ids: seq<string>, id: string)
    ensures Last(ids + [id], WINDOW) == Trimmed(Last(ids, WINDOW) + [id])
  {
  }

  /** What is remembered is always exactly the last 2000 ids let through, each once. */
  lemma {:induction false} WindowIsTheLast(ids: seq<string>)
    ensures Run(ids).window == Last(NonEmpty(Run(ids).accepted), 2000)
    ensures Distinct(Run(ids).window) && |Run(ids).window| <= 2000
  {
    if ids != [] {
      var before, id := ids[..|ids| - 1], ids[|ids| - 1];
      WindowIsTheLast(before);
      var s := Run(before);
      NonEmptySnoc(s.accepted, id);
      LastSnoc(NonEmpty(s.accepted), id);
      assert NonEmpty(s.accepted) + [] == NonEmpty(s.accepted);
    }
  }

  /** The ids without repeats, in the order of their first occurrence. */
  function Firsts(ids: seq<string>): seq<string> {
    if ids == [] then []
    else
      var before, id := Firsts(ids[..|ids| - 1]), ids[|ids| - 1];
      if id in before then before else before + [id]
  }

  /** As long as no more than 2000 different ids have come, every repeat is dropped and nothing else. */
  lemma {:induction false} RepeatsAreDropped(ids: seq<string>)
    requires "" !in ids && |Firsts(ids)| <= 2000
    ensures Run(ids).accepted == Firsts(ids) && Run(ids).window == Firsts(ids)
  {
    if ids != [] {
      assert ids[|ids| - 1] in ids;
      RepeatsAreDropped(ids[..|ids| - 1]);
    }
  }

  /** An id is let through exactly if it is not among the last 2000 let through. */
  lemma LetThroughIff(ids: seq<string>, id: string)
    requires id != ""
    ensures Run(ids + [id]).accepted == (if id in Last(NonEmpty(Run(ids).accepted), 2000) then Run(ids).accepted
                                         else Run(ids).accepted + [id])
  {
    WindowIsTheLast(ids);
    assert (ids + [id])[..|ids|] == ids;
  }

  class SeenIds {
    /** An insertion-ordered set. */
    var window: seq<string>
    ghost var accepted: seq<string>

    constructor ()
      ensures View() == Seen([], [])
    {
      window, accepted := [], [];
    }

    ghost function View(): Seen
      reads this
    {
      Seen(window, accepted)
    }

    method FirstSeen(id: string) returns (first: bool)
      modifies this
      ensures View() == Offered(old(View()), id)
      ensures first <==> id == "" || id !in old(window)
    {
      if id == "" {
        accepted := accepted + [id];
        return true;
      }
      if id in window {
        return false;
      }
      window := window + [id];
      accepted := accepted + [id];
      if |window| > WINDOW {
        window := window[1..];
      }
      return true;
    }
  }
}
