/** One `Get` at a time, on the slices themselves: callers and the fetcher never share memory with the cache. */
module CacheObject {
  import opened Ordering
  import opened CategoryCache

  method Copy(a: array<Category>) returns (b: array<Category>)
    ensures fresh(b) && b[..] == a[..]
  {
    b := new Category[a.Length](i requires 0 <= i < a.Length reads a => a[i]);
  }

  class Cache {
    var items: array<Category>
    var expiresAt: nat
    const ttl: nat

    constructor (ttl: int)
      ensures items[..] == [] && expiresAt == 0 && this.ttl == Ttl(ttl) && fresh(items)
    {
      items := new Category[0];
      expiresAt := 0;
      this.ttl := Ttl(ttl);
    }

    /** A live value is copied out; otherwise a successful fetch is copied in and out; a failed one changes nothing. */
    method Get(now: nat, answer: Option<array<Category>>) returns (r: Option<array<Category>>)
      modifies this
      ensures r.Some? ==> fresh(r.value) && r.value != items
      ensures now < old(expiresAt) ==> r.Some? && r.value[..] == old(items[..]) && unchanged(this)
      ensures now >= old(expiresAt) && answer.None? ==> r.None? && unchanged(this)
      ensures now >= old(expiresAt) && answer.Some? ==>
        && r.Some? && r.value[..] == old(answer.value[..]) && items[..] == old(answer.value[..])
        && fresh(items) && expiresAt == now + ttl
    {
      if now < expiresAt {
        var hit := Copy(items);
        return Some(hit);
      }
      if answer.None? {
        return None;
      }
      items := Copy(answer.value);
      expiresAt := now + ttl;
      var out := Copy(answer.value);
      r := Some(out);
    }
  }

  // ----- Any number of calls, with every slice ever handed over written to in between -----

  /**
   A call at `now`, the fetch answering `answer` if it is asked, or a write to a slice the cache has seen or
   given.
   */
  datatype Use = Call(now: nat, answer: Option<seq<Category>>) | Scrawl(which: nat, at: nat, what: Category)

  /** What the calls return when the cache remembers plain values: writes to slices have no part in it. */
  function Replies(ttl: nat, items: seq<Category>, expiresAt: nat, uses: seq<Use>): seq<Option<seq<Category>>>
    decreases |uses|
  {
    if uses == [] then [] else
      match uses[0]
      case Scrawl(_, _, _) => Replies(ttl, items, expiresAt, uses[1..])
      case Call(now, answer) =>
        if now < expiresAt then [Some(items)] + Replies(ttl, items, expiresAt, uses[1..])
        else if answer.None? then [None] + Replies(ttl, items, expiresAt, uses[1..])
        else [answer] + Replies(ttl, answer.value, now + ttl, uses[1..])
  }

  method CopyOf(s: seq<Category>) returns (a: array<Category>)
    ensures fresh(a) && a[..] == s
  {
    a := new Category[|s|](i requires 0 <= i < |s| => s[i]);
  }

  /**
   Returned slices are the callers' own, and fetched ones the fetcher's: whatever is written to any of them, and
   whenever, every later call returns what it would have returned without those writes.
   */
  method WritesAreHarmless(ttl: int, uses: seq<Use>) returns (replies: seq<Option<seq<Category>>>)
    ensures replies == Replies(Ttl(ttl), [], 0, uses)
  {
    var c := new Cache(ttl);
    var handed: seq<array<Category>> := [];
    replies := [];
    for i := 0 to |uses|
      invariant fresh(c) && c.ttl == Ttl(ttl) && c.items !in handed && forall a | a in handed :: fresh(a)
      invariant replies + Replies(c.ttl, c.items[..], c.expiresAt, uses[i..]) == Replies(Ttl(ttl), [], 0, uses)
    {
      assert uses[i..][0] == uses[i] && uses[i..][1..] == uses[i + 1..];
      match uses[i] {
        case Scrawl(which, at, what) =>
          if |handed| > 0 {
            var a := handed[which % |handed|];
            assert a in handed;
            if at < a.Length {
              a[at] := what;
            }
          }
        case Call(now, answer) =>
          var reply := None;
          if answer.Some? {
            var fetched := CopyOf(answer.value);
            handed := handed + [fetched];
            reply := c.Get(now, Some(fetched));
          } else {
            reply := c.Get(now, None);
          }
          if reply.Some? {
            handed := handed + [reply.value];
          }
          replies := replies + [if reply.None? then None else Some(reply.value[..])];
      }
    }
  }
}
