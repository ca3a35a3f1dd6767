/** The user registry behind `/start` and `/bcast`: the rows of the
    `users` table, in insertion order. The `start` handler inserts a chat
    id only after checking that it is absent. */
module Registry {

  predicate NoDuplicates(s: seq<int>) {
    forall i, j :: 0 <= i < j < |s| ==> s[i] != s[j]
  }

  /** `if not is_inserted("users", chat): insert("users", chat)` */
  function Register(users: seq<int>, chat: int): (r: seq<int>)
    ensures forall u :: u in r <==> u in users || u == chat
    ensures |users| <= |r| <= |users| + 1 && r[..|users|] == users
    ensures NoDuplicates(users) ==> NoDuplicates(r)
  {
    if chat in users then users else users + [chat]
  }

  /** A second `/start` from the same chat changes nothing. */
  lemma RegisterIdempotent(users: seq<int>, chat: int)
    ensures Register(Register(users, chat), chat) == Register(users, chat)
  {
  }

  /** In a table without duplicates every id occurs at most once. */
  lemma {:induction false} NoDuplicatesCount(s: seq<int>, x: int)
    requires NoDuplicates(s)
    ensures multiset(s)[x] == if x in s then 1 else 0
  {
    if |s| > 0 {
      var init, last := s[..|s| - 1], s[|s| - 1];
      assert s == init + [last];
      assert NoDuplicates(init);
      assert last !in init by {
        forall k | 0 <= k < |init| ensures init[k] != last {
          assert init[k] == s[k];
        }
      }
      NoDuplicatesCount(init, x);
      assert x in s <==> x in init || x == last;
    }
  }

  /** However often a chat sends `/start`, starting from a table without
      duplicates it ends up with exactly one row. */
  lemma OneRowPerChat(users: seq<int>, chat: int)
    requires NoDuplicates(users)
    ensures multiset(Register(users, chat))[chat] == 1
    ensures multiset(Register(Register(users, chat), chat))[chat] == 1
  {
    NoDuplicatesCount(Register(users, chat), chat);
  }
}
