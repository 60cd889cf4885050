/**
 * The contact list: the online filter, the pinned/unpinned partition, the
 * stable descending sort by activity inside each group, and the per-row
 * badge and pin-toggle decisions.
 */
module Sidebar {
  import opened Wrappers
  import opened UserModel
  import ChatStore

  /** A contact's activity: its local unread counter, absent or zero reading as 0. */
  function Activity(unread: map<UserId, nat>, u: PublicUser): (a: nat)
    ensures u.id in unread ==> a == unread[u.id]
    ensures u.id !in unread ==> a == 0
    ensures a > 0 <==> Badge(unread, u.id).Some?
  {
    CountOf(unread, u.id)
  }

  /** The users whose id is (`inside`) or is not (`!inside`) listed in `ids`, in order. */
  function Keep(us: seq<PublicUser>, ids: seq<UserId>, inside: bool): seq<PublicUser>
  {
    if |us| == 0 then []
    else (if (us[0].id in ids) == inside then [us[0]] else []) + Keep(us[1..], ids, inside)
  }

  /** A user is kept exactly when listed in the input with an id on the asked-for side. */
  lemma {:induction false} KeepMembers(us: seq<PublicUser>, ids: seq<UserId>, inside: bool)
    ensures forall u :: u in Keep(us, ids, inside) <==> u in us && (u.id in ids) == inside
  {
    if |us| > 0 {
      var rest := us[1..];
      KeepMembers(rest, ids, inside);
      Seqs.HeadTail(us);
    }
  }

  /** The two sides of a partition together hold every user, each exactly once. */
  lemma {:induction false} KeepSplits(us: seq<PublicUser>, ids: seq<UserId>)
    ensures multiset(Keep(us, ids, true)) + multiset(Keep(us, ids, false)) == multiset(us)
  {
    if |us| > 0 {
      var rest := us[1..];
      KeepSplits(rest, ids);
      Seqs.MultisetCons(us);
      var yes := Keep(rest, ids, true);
      var no := Keep(rest, ids, false);
      if us[0].id in ids {
        assert Keep(us, ids, true) == [us[0]] + yes;
        assert Keep(us, ids, false) == [] + no;
      } else {
        assert Keep(us, ids, true) == [] + yes;
        assert Keep(us, ids, false) == [us[0]] + no;
      }
    }
  }

  /** Filtering works piecewise, so the kept users stay in their order. */
  lemma {:induction false} KeepAppend(a: seq<PublicUser>, b: seq<PublicUser>, ids: seq<UserId>, inside: bool)
    ensures Keep(a + b, ids, inside) == Keep(a, ids, inside) + Keep(b, ids, inside)
  {
    if |a| == 0 {
      assert a + b == b;
    } else {
      assert (a + b)[1..] == a[1..] + b;
      KeepAppend(a[1..], b, ids, inside);
    }
  }

  /** `filteredUsers`: everyone, or only the users whose id is online. */
  function FilteredUsers(users: seq<PublicUser>, onlineUsers: seq<UserId>, onlineOnly: bool): (r: seq<PublicUser>)
    ensures !onlineOnly ==> r == users
    ensures onlineOnly ==> r == Keep(users, onlineUsers, true)
    ensures onlineOnly ==> forall u :: u in r <==> u in users && u.id in onlineUsers
  {
    if onlineOnly then
      KeepMembers(users, onlineUsers, true);
      Keep(users, onlineUsers, true)
    else users
  }

  /** Non-increasing activity from front to back. */
  ghost predicate ByActivity(unread: map<UserId, nat>, s: seq<PublicUser>) {
    forall i, j :: 0 <= i < j < |s| ==> Activity(unread, s[i]) >= Activity(unread, s[j])
  }

  /** `u` placed after every entry whose activity is at least its own. */
  function Insert(unread: map<UserId, nat>, u: PublicUser, s: seq<PublicUser>): (r: seq<PublicUser>)
    ensures multiset(r) == multiset(s) + multiset{u}
    decreases |s|
  {
    if |s| == 0 then [u]
    else if Activity(unread, s[0]) >= Activity(unread, u) then
      Seqs.HeadTail(s);
      [s[0]] + Insert(unread, u, s[1..])
    else
      [u] + s
  }

  /** A suffix of a list ordered by activity is ordered too. */
  lemma TailByActivity(unread: map<UserId, nat>, s: seq<PublicUser>)
    requires |s| > 0 && ByActivity(unread, s)
    ensures ByActivity(unread, s[1..])
    ensures forall x :: x in s[1..] ==> Activity(unread, x) <= Activity(unread, s[0])
  {
    forall x | x in s[1..] ensures Activity(unread, x) <= Activity(unread, s[0]) {
      var k :| 0 <= k < |s[1..]| && s[1..][k] == x;
      assert s[k + 1] == x;
    }
  }

  /** Putting an entry with the highest activity in front keeps a list ordered. */
  lemma ConsKeepsOrder(unread: map<UserId, nat>, x: PublicUser, s: seq<PublicUser>)
    requires ByActivity(unread, s)
    requires forall y :: y in s ==> Activity(unread, y) <= Activity(unread, x)
    ensures ByActivity(unread, [x] + s)
  {
    var r := [x] + s;
    forall i, j | 0 <= i < j < |r| ensures Activity(unread, r[i]) >= Activity(unread, r[j]) {
      assert r[j] == s[j - 1];
      if i > 0 {
        assert r[i] == s[i - 1];
      }
    }
  }

  /** Inserting into an ordered list keeps it ordered. */
  lemma {:induction false} InsertKeepsOrder(unread: map<UserId, nat>, u: PublicUser, s: seq<PublicUser>)
    requires ByActivity(unread, s)
    ensures ByActivity(unread, Insert(unread, u, s))
    decreases |s|
  {
    if |s| > 0 {
      TailByActivity(unread, s);
      if Activity(unread, s[0]) >= Activity(unread, u) {
        var rest := Insert(unread, u, s[1..]);
        InsertKeepsOrder(unread, u, s[1..]);
        forall x | x in rest ensures Activity(unread, x) <= Activity(unread, s[0]) {
          assert x in multiset(rest);
          if x != u {
            assert x in multiset(s[1..]);
          }
        }
        ConsKeepsOrder(unread, s[0], rest);
      } else {
        Seqs.HeadTail(s);
        ConsKeepsOrder(unread, u, s);
      }
    }
  }

  /**
   * `[...group].sort((a, b) => activity(b) - activity(a))`: a stable sort, so
   * entries are taken left to right and each goes after the equal ones.
   */
  function SortByActivity(unread: map<UserId, nat>, us: seq<PublicUser>): (r: seq<PublicUser>)
    ensures multiset(r) == multiset(us)
    ensures ByActivity(unread, r)
    decreases |us|
  {
    if |us| == 0 then []
    else
      var init := us[..|us| - 1];
      Seqs.InitLast(us);
      InsertKeepsOrder(unread, us[|us| - 1], SortByActivity(unread, init));
      Insert(unread, us[|us| - 1], SortByActivity(unread, init))
  }

  /** `[x]` when `x` has activity `k`, otherwise nothing. */
  function IfActivity(unread: map<UserId, nat>, x: PublicUser, k: nat): seq<PublicUser> {
    if Activity(unread, x) == k then [x] else []
  }

  /** The entries with activity exactly `k`, in order. */
  function WithActivity(unread: map<UserId, nat>, s: seq<PublicUser>, k: nat): seq<PublicUser>
    decreases |s|
  {
    if |s| == 0 then [] else IfActivity(unread, s[0], k) + WithActivity(unread, s[1..], k)
  }

  lemma {:induction false} WithActivitySnoc(unread: map<UserId, nat>, s: seq<PublicUser>, x: PublicUser, k: nat)
    ensures WithActivity(unread, s + [x], k) == WithActivity(unread, s, k) + IfActivity(unread, x, k)
    decreases |s|
  {
    if |s| == 0 {
      assert s + [x] == [x];
      assert [x][1..] == [];
    } else {
      assert (s + [x])[1..] == s[1..] + [x];
      WithActivitySnoc(unread, s[1..], x, k);
    }
  }

  /** Entries all below `k` leave nothing of activity `k`. */
  lemma {:induction false} WithActivityNone(unread: map<UserId, nat>, s: seq<PublicUser>, k: nat)
    requires forall i :: 0 <= i < |s| ==> Activity(unread, s[i]) < k
    ensures WithActivity(unread, s, k) == []
    decreases |s|
  {
    if |s| > 0 {
      WithActivityNone(unread, s[1..], k);
    }
  }

  /** The classes of `[x] + s`: `x`'s contribution, then those of `s`. */
  lemma WithActivityCons(unread: map<UserId, nat>, x: PublicUser, s: seq<PublicUser>, k: nat)
    ensures WithActivity(unread, [x] + s, k) == IfActivity(unread, x, k) + WithActivity(unread, s, k)
  {
    assert ([x] + s)[1..] == s;
  }

  /** Putting the same entry in front of two lists keeps their classes related. */
  lemma ConsKeepsClasses(unread: map<UserId, nat>, x: PublicUser, a: seq<PublicUser>,
                         b: seq<PublicUser>, extra: seq<PublicUser>, k: nat)
    requires WithActivity(unread, a, k) == WithActivity(unread, b, k) + extra
    ensures WithActivity(unread, [x] + a, k) == WithActivity(unread, [x] + b, k) + extra
  {
    WithActivityCons(unread, x, a, k);
    WithActivityCons(unread, x, b, k);
    Seqs.AppendAssoc(IfActivity(unread, x, k), WithActivity(unread, b, k), extra);
  }

  /** The step of `Insert` that stops in front of a lower entry. */
  lemma InsertStopsHere(unread: map<UserId, nat>, u: PublicUser, s: seq<PublicUser>, k: nat)
    requires ByActivity(unread, s)
    requires |s| > 0 && Activity(unread, s[0]) < Activity(unread, u)
    ensures WithActivity(unread, Insert(unread, u, s), k)
              == WithActivity(unread, s, k) + IfActivity(unread, u, k)
  {
    assert Insert(unread, u, s) == [u] + s;
    assert ([u] + s)[1..] == s;
    if Activity(unread, u) == k {
      WithActivityNone(unread, s, k);
    }
  }

  /** Inserting into an ordered list appends to the inserted entry's activity class. */
  lemma {:induction false} InsertIsStable(unread: map<UserId, nat>, u: PublicUser, s: seq<PublicUser>, k: nat)
    requires ByActivity(unread, s)
    ensures WithActivity(unread, Insert(unread, u, s), k)
              == WithActivity(unread, s, k) + IfActivity(unread, u, k)
    decreases |s|
  {
    if |s| == 0 {
      assert Insert(unread, u, s) == [u];
      assert [u][1..] == [];
    } else if Activity(unread, s[0]) >= Activity(unread, u) {
      TailByActivity(unread, s);
      InsertIsStable(unread, u, s[1..], k);
      ConsKeepsClasses(unread, s[0], Insert(unread, u, s[1..]), s[1..], IfActivity(unread, u, k), k);
      Seqs.HeadTail(s);
    } else {
      InsertStopsHere(unread, u, s, k);
    }
  }

  /**
   * Stability: in the sorted group, the entries of each activity value are
   * exactly those of the input, in the input's order.
   */
  lemma {:induction false} SortIsStable(unread: map<UserId, nat>, us: seq<PublicUser>, k: nat)
    ensures WithActivity(unread, SortByActivity(unread, us), k) == WithActivity(unread, us, k)
    decreases |us|
  {
    if |us| == 0 {
      assert SortByActivity(unread, us) == [];
    } else {
      var init := us[..|us| - 1];
      var last := us[|us| - 1];
      SortStepIsStable(unread, us, k);
      SortIsStable(unread, init, k);
      WithActivitySnoc(unread, init, last, k);
      Seqs.InitLast(us);
      var x := WithActivity(unread, init, k);
      assert WithActivity(unread, SortByActivity(unread, us), k) == x + IfActivity(unread, last, k);
      assert WithActivity(unread, init + [last], k) == x + IfActivity(unread, last, k);
    }
  }

  /** One step of the sort appends the last input entry to its class. */
  lemma SortStepIsStable(unread: map<UserId, nat>, us: seq<PublicUser>, k: nat)
    requires |us| > 0
    ensures WithActivity(unread, SortByActivity(unread, us), k)
              == WithActivity(unread, SortByActivity(unread, us[..|us| - 1]), k) + IfActivity(unread, us[|us| - 1], k)
  {
    var sortedInit := SortByActivity(unread, us[..|us| - 1]);
    InsertIsStable(unread, us[|us| - 1], sortedInit, k);
    assert SortByActivity(unread, us) == Insert(unread, us[|us| - 1], sortedInit);
  }

  /** The pinned group sorted, then the unpinned group sorted (`sortedUsers`). */
  datatype Groups = Groups(pinned: seq<PublicUser>, unpinned: seq<PublicUser>) {
    function All(): seq<PublicUser> { pinned + unpinned }
  }

  function Arrange(filtered: seq<PublicUser>, unread: map<UserId, nat>, pinnedChats: seq<UserId>): (g: Groups)
    ensures forall u :: u in g.pinned ==> u.id in pinnedChats
    ensures forall u :: u in g.unpinned ==> u.id !in pinnedChats
    ensures ByActivity(unread, g.pinned) && ByActivity(unread, g.unpinned)
  {
    var pinned := SortByActivity(unread, Keep(filtered, pinnedChats, true));
    var unpinned := SortByActivity(unread, Keep(filtered, pinnedChats, false));
    KeepMembers(filtered, pinnedChats, true);
    KeepMembers(filtered, pinnedChats, false);
    assert forall u :: u in pinned ==> u in multiset(Keep(filtered, pinnedChats, true));
    assert forall u :: u in unpinned ==> u in multiset(Keep(filtered, pinnedChats, false));
    Groups(pinned, unpinned)
  }

  /** `sortedUsers` is a permutation of `filteredUsers`. */
  lemma ArrangeIsPermutation(filtered: seq<PublicUser>, unread: map<UserId, nat>, pinnedChats: seq<UserId>)
    ensures multiset(Arrange(filtered, unread, pinnedChats).All()) == multiset(filtered)
  {
    KeepSplits(filtered, pinnedChats);
  }

  /** Every pinned contact precedes every unpinned one in `sortedUsers`. */
  lemma ArrangePinnedFirst(filtered: seq<PublicUser>, unread: map<UserId, nat>, pinnedChats: seq<UserId>)
    ensures var all := Arrange(filtered, unread, pinnedChats).All();
              forall i, j :: 0 <= i < j < |all| && all[j].id in pinnedChats ==> all[i].id in pinnedChats
  {
    var g := Arrange(filtered, unread, pinnedChats);
    var all := g.All();
    forall i, j | 0 <= i < j < |all| && all[j].id in pinnedChats ensures all[i].id in pinnedChats {
    }
  }

  /** Ties within a group keep their order from `users`. */
  lemma ArrangeIsStable(filtered: seq<PublicUser>, unread: map<UserId, nat>, pinnedChats: seq<UserId>, k: nat)
    ensures var g := Arrange(filtered, unread, pinnedChats);
              && WithActivity(unread, g.pinned, k) == WithActivity(unread, Keep(filtered, pinnedChats, true), k)
              && WithActivity(unread, g.unpinned, k) == WithActivity(unread, Keep(filtered, pinnedChats, false), k)
  {
    SortIsStable(unread, Keep(filtered, pinnedChats, true), k);
    SortIsStable(unread, Keep(filtered, pinnedChats, false), k);
  }

  /** What the list shows around the rows. */
  datatype Layout = Layout(
    rows: Groups,
    pinnedHeading: bool,
    chatsHeading: bool,
    emptyNotice: Option<string>)

  /** The rendered contact list, from the store's and the presence's data. */
  function Render(users: seq<PublicUser>, onlineUsers: seq<UserId>, onlineOnly: bool,
                  unread: map<UserId, nat>, pinnedChats: seq<UserId>): (l: Layout)
    ensures l.rows == Arrange(FilteredUsers(users, onlineUsers, onlineOnly), unread, pinnedChats)
    ensures multiset(l.rows.All()) == multiset(FilteredUsers(users, onlineUsers, onlineOnly))
    ensures l.pinnedHeading <==> |l.rows.pinned| > 0
    ensures l.chatsHeading <==> |l.rows.pinned| > 0 && |l.rows.unpinned| > 0
    ensures l.emptyNotice.Some? <==> |FilteredUsers(users, onlineUsers, onlineOnly)| == 0
    ensures l.emptyNotice.Some? ==> l.emptyNotice.value == "No online users"
  {
    var filtered := FilteredUsers(users, onlineUsers, onlineOnly);
    var g := Arrange(filtered, unread, pinnedChats);
    ArrangeIsPermutation(filtered, unread, pinnedChats);
    Layout(g, |g.pinned| > 0, |g.pinned| > 0 && |g.unpinned| > 0,
           if |filtered| == 0 then Some("No online users") else None)
  }

  /** The unread badge: shown with the count iff the count is positive. */
  function Badge(unread: map<UserId, nat>, id: UserId): (b: Option<nat>)
    ensures b.Some? <==> id in unread && unread[id] > 0
    ensures b.Some? <==> CountOf(unread, id) > 0
    ensures b.Some? ==> b.value == unread[id]
  {
    if id in unread && unread[id] > 0 then Some(unread[id]) else None
  }

  /** The pin toggle calls `unpinChat` for a pinned contact and `pinChat` otherwise. */
  function PinToggle(pinnedChats: seq<UserId>, id: UserId): (req: ChatStore.Request)
    ensures id in pinnedChats <==> req == ChatStore.Unpin(id)
    ensures id !in pinnedChats <==> req == ChatStore.Pin(id)
  {
    if id in pinnedChats then ChatStore.Unpin(id) else ChatStore.Pin(id)
  }

  /** The toggle's accessible label follows the same test. */
  function PinLabel(pinnedChats: seq<UserId>, id: UserId): (ariaLabel: string)
    ensures ariaLabel == "Unpin chat" <==> PinToggle(pinnedChats, id).Unpin?
  {
    if id in pinnedChats then "Unpin chat" else "Pin chat"
  }
}
