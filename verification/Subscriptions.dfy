/** Who subscribed to which module, and which changes wait to be pushed to whom. */
module Subscriptions {
  import opened Words

  /** Module to connections, and connection to modules. */
  type Book = map<Uint64, set<Int32>>
  type PushList = map<Int32, set<Uint64>>

  function Subscribers(b: Book, mod: Uint64): set<Int32> {
    if mod in b then b[mod] else {}
  }

  function Waiting(p: PushList, fd: Int32): set<Uint64> {
    if fd in p then p[fd] else {}
  }

  /** No module is booked by nobody. */
  predicate NoEmptyEntries(b: Book) {
    forall mod :: mod in b ==> b[mod] != {}
  }

  function Subscribed(b: Book, mod: Uint64, fd: Int32): Book {
    b[mod := Subscribers(b, mod) + {fd}]
  }

  function Unsubscribed(b: Book, mod: Uint64, fd: Int32): Book {
    if Subscribers(b, mod) - {fd} == {} then b - {mod} else b[mod := b[mod] - {fd}]
  }

  /** A change of one module waits for each of its subscribers. */
  function PushedOne(b: Book, p: PushList, mod: Uint64): PushList {
    map fd | fd in p.Keys + Subscribers(b, mod) ::
      if fd in Subscribers(b, mod) then Waiting(p, fd) + {mod} else p[fd]
  }

  function Pushed(b: Book, p: PushList, changes: seq<Uint64>): PushList {
    if changes == [] then p
    else PushedOne(b, Pushed(b, p, changes[..|changes| - 1]), changes[|changes| - 1])
  }

  /** The entries of the connections a loop is listening to, and all others. */
  function Taken(p: PushList, listening: set<Int32>): PushList {
    map fd | fd in p && fd in listening :: p[fd]
  }

  function Kept(p: PushList, listening: set<Int32>): PushList {
    map fd | fd in p && fd !in listening :: p[fd]
  }

  // ---------- Properties ----------

  lemma SubscribedExactly(b: Book, mod: Uint64, fd: Int32, mod': Uint64, fd': Int32)
    requires NoEmptyEntries(b)
    ensures NoEmptyEntries(Subscribed(b, mod, fd)) && NoEmptyEntries(Unsubscribed(b, mod, fd))
    ensures fd' in Subscribers(Subscribed(b, mod, fd), mod')
       <==> fd' in Subscribers(b, mod') || (fd' == fd && mod' == mod)
    ensures fd' in Subscribers(Unsubscribed(b, mod, fd), mod')
       <==> fd' in Subscribers(b, mod') && !(fd' == fd && mod' == mod)
  {
  }

  /** Unsubscribing undoes a subscription that was not there before. */
  lemma UnsubscribeUndoes(b: Book, mod: Uint64, fd: Int32)
    requires NoEmptyEntries(b) && fd !in Subscribers(b, mod)
    ensures Unsubscribed(Subscribed(b, mod, fd), mod, fd) == b
  {
    assert Subscribers(b, mod) + {fd} - {fd} == Subscribers(b, mod);
  }

  /** After a push, exactly the old pairs wait and those of changed modules with
      their subscribers at that moment. */
  lemma {:induction false} PushedExactly(b: Book, p: PushList, changes: seq<Uint64>, fd: Int32, mod: Uint64)
    ensures mod in Waiting(Pushed(b, p, changes), fd)
       <==> mod in Waiting(p, fd) || (mod in changes && fd in Subscribers(b, mod))
  {
    if changes != [] {
      var n := |changes| - 1;
      PushedExactly(b, p, changes[..n], fd, mod);
      assert changes == changes[..n] + [changes[n]];
    }
  }

  /** Fetching splits the waiting pairs: each is taken or kept, none is both, lost or new. */
  lemma FetchSplits(p: PushList, listening: set<Int32>, fd: Int32, mod: Uint64)
    ensures mod in Waiting(Taken(p, listening), fd) <==> mod in Waiting(p, fd) && fd in listening
    ensures mod in Waiting(Kept(p, listening), fd) <==> mod in Waiting(p, fd) && fd !in listening
    ensures Taken(p, listening) + Kept(p, listening) == p
    ensures Taken(p, listening).Keys !! Kept(p, listening).Keys
  {
  }

  lemma PushedStep(b: Book, p: PushList, changes: seq<Uint64>, i: nat)
    requires i < |changes|
    ensures Pushed(b, p, changes[..i + 1]) == PushedOne(b, Pushed(b, p, changes[..i]), changes[i])
  {
    assert changes[..i + 1][..i] == changes[..i];
  }

  class SubscribeList {
    var bookl: Book
    var pushl: PushList

    constructor ()
      ensures bookl == map[] && pushl == map[]
    {
      bookl, pushl := map[], map[];
    }

    method Subscribe(mod: Uint64, fd: Int32)
      modifies this`bookl
      ensures bookl == Subscribed(old(bookl), mod, fd)
    {
      if mod !in bookl {
        bookl := bookl[mod := {}];
      }
      bookl := bookl[mod := bookl[mod] + {fd}];
    }

    method Unsubscribe(mod: Uint64, fd: Int32)
      requires NoEmptyEntries(bookl)
      modifies this`bookl
      ensures bookl == Unsubscribed(old(bookl), mod, fd)
    {
      if mod in bookl {
        bookl := bookl[mod := bookl[mod] - {fd}];
        if bookl[mod] == {} {
          bookl := bookl - {mod};
        }
      }
    }

    /** Makes the changed modules wait for their subscribers. */
    method Push(changes: seq<Uint64>)
      modifies this`pushl
      ensures pushl == Pushed(bookl, old(pushl), changes)
    {
      for i := 0 to |changes|
        invariant pushl == Pushed(bookl, old(pushl), changes[..i])
      {
        PushedStep(bookl, old(pushl), changes, i);
        var mod := changes[i];
        if mod in bookl {
          PushTo(mod);
        } else {
          assert PushedOne(bookl, pushl, mod) == pushl;
        }
      }
      assert changes[..|changes|] == changes;
    }

    method PushTo(mod: Uint64)
      requires mod in bookl
      modifies this`pushl
      ensures pushl == PushedOne(bookl, old(pushl), mod)
    {
      var left := bookl[mod];
      ghost var p := pushl;
      while left != {}
        invariant left <= bookl[mod]
        invariant pushl == map fd | fd in p.Keys + (bookl[mod] - left) ::
                             if fd in bookl[mod] - left then Waiting(p, fd) + {mod} else p[fd]
        decreases left
      {
        var fd :| fd in left;
        if fd !in pushl {
          pushl := pushl[fd := {}];
        }
        pushl := pushl[fd := pushl[fd] + {mod}];
        left := left - {fd};
      }
    }

    /** Hands over, and forgets, what waits for the given connections. */
    method FetchPush(listening: set<Int32>) returns (news: PushList)
      modifies this`pushl
      ensures news == Taken(old(pushl), listening)
      ensures pushl == Kept(old(pushl), listening)
    {
      news := map[];
      var left := pushl.Keys;
      ghost var p := pushl;
      while left != {}
        invariant left <= p.Keys
        invariant news == map fd | fd in p && fd in listening && fd !in left :: p[fd]
        invariant pushl == map fd | fd in p && (fd !in listening || fd in left) :: p[fd]
        decreases left
      {
        var fd :| fd in left;
        if fd in listening {
          news := news[fd := pushl[fd]];
          pushl := pushl - {fd};
        }
        left := left - {fd};
      }
    }
  }
}
