/**
The inbox as the program runs it: the view is edited in place, shifted, extended and trimmed,
never recomputed except on reload; it always equals recomputation.
 */
module EventManagerObject {
  import opened EventInbox

  class EventManager {
    var all: seq<Rec> // newest first
    var view: seq<nat> // positions in all that pass the filter
    var filter: Filter
    var unread: nat

    ghost predicate Valid()
      reads this
    {
      view == Indices(filter, all) && |all| <= MAX_EVENTS
    }

    ghost function Contents(): Inbox
      reads this
    {
      Inbox(all, filter, unread)
    }

    /** `recent` is what the database returns for the newest MAX_EVENTS rows. */
    constructor (recent: seq<Rec>)
      requires |recent| <= MAX_EVENTS
      ensures Valid()
      ensures Contents() == Inbox(recent, Filter("", ""), 0)
    {
      all, view, filter, unread := [], [], Filter("", ""), 0;
      new;
      Reload(recent);
    }

    method Reload(recent: seq<Rec>)
      requires |recent| <= MAX_EVENTS
      modifies this
      ensures Valid()
      ensures Contents() == old(Contents()).(all := recent)
    {
      all := recent;
      view := [];
      var i := 0;
      assert all[..0] == [];
      while i < |all|
        invariant 0 <= i <= |all| && all == recent && filter == old(filter) && unread == old(unread)
        invariant view == Indices(filter, all[..i])
      {
        assert all[..i + 1][..i] == all[..i];
        if Matches(filter, all[i]) {
          view := view + [i];
        }
        i := i + 1;
      }
      assert all[..i] == all;
    }

    method SetFilter(f: Filter, recent: seq<Rec>)
      requires Valid() && |recent| <= MAX_EVENTS
      modifies this
      ensures Valid()
      ensures Contents() == if f == old(filter) then old(Contents()) else old(Contents()).(filter := f, all := recent)
    {
      if filter == f {
        return;
      }
      filter := f;
      Reload(recent);
    }

    /** A detection or a camera going on- or offline. */
    method Record(rec: Rec)
      requires Valid()
      modifies this
      ensures Valid()
      ensures Contents() == Recorded(old(Contents()), rec)
    {
      hide Indices, Below;
      Prepend(rec);
      unread := unread + 1;
      if |all| > MAX_EVENTS {
        IndicesOfCut(filter, all, MAX_EVENTS);
        TrimView();
        all := all[..MAX_EVENTS];
      }
    }

    method Prepend(rec: Rec)
      requires view == Indices(filter, all)
      modifies this`all, this`view
      ensures all == [rec] + old(all)
      ensures view == Indices(filter, all)
    {
      hide Indices;
      IndicesOfPrepended(filter, rec, all);
      all := [rec] + all;
      ShiftView();
      if Matches(filter, rec) {
        view := [0] + view;
      } else {
        assert [] + view == view;
      }
    }

    method ShiftView()
      modifies this`view
      ensures view == Shifted(old(view))
    {
      var i := 0;
      while i < |view|
        invariant 0 <= i <= |view| == |old(view)|
        invariant forall k | 0 <= k < i :: view[k] == old(view)[k] + 1
        invariant forall k | i <= k < |view| :: view[k] == old(view)[k]
      {
        view := view[i := view[i] + 1];
        i := i + 1;
      }
    }

    /** Positions beyond the cap sit at the end of the ascending view. */
    method TrimView()
      modifies this`view
      ensures view == Below(old(view), MAX_EVENTS)
    {
      var vi := |view| - 1;
      while vi >= 0 && view[vi] >= MAX_EVENTS
        invariant -1 <= vi == |view| - 1
        invariant Below(view, MAX_EVENTS) == Below(old(view), MAX_EVENTS)
      {
        view := view[..vi];
        vi := vi - 1;
      }
    }

    method OnThumbnailReady(id: int, path: string)
      requires Valid()
      modifies this`all
      ensures Valid()
      ensures Contents() == old(Contents()).(all := WithThumbnail(old(all), id, path))
    {
      hide Indices, WithThumbnail;
      var i := 0;
      while i < |all|
        invariant 0 <= i <= |all|
        invariant forall k | 0 <= k < i :: all[k].id != id
      {
        if all[i].id == id {
          ThumbnailOfFirst(all, i, id, path);
          ThumbnailKeepsView(filter, all, i, path);
          all := all[i := all[i].(thumbnail := path)];
          return;
        }
        i := i + 1;
      }
      ThumbnailOfNone(all, id, path);
    }

    method Clear()
      requires Valid()
      modifies this
      ensures Valid()
      ensures Contents() == old(Contents()).(all := [], unread := 0)
    {
      unread := 0;
      Reload([]);
    }

    method MarkAllRead()
      requires Valid()
      modifies this`unread
      ensures Valid() && unread == 0
    {
      unread := 0;
    }
  }

  lemma {:induction false} ThumbnailOfFirst(all: seq<Rec>, i: nat, id: int, path: string)
    requires i < |all| && all[i].id == id && forall k | 0 <= k < i :: all[k].id != id
    ensures WithThumbnail(all, id, path) == all[i := all[i].(thumbnail := path)]
  {
    if i > 0 {
      ThumbnailOfFirst(all[1..], i - 1, id, path);
      assert all == [all[0]] + all[1..];
    }
  }

  lemma {:induction false} ThumbnailOfNone(all: seq<Rec>, id: int, path: string)
    requires forall k | 0 <= k < |all| :: all[k].id != id
    ensures WithThumbnail(all, id, path) == all
  {
    if all != [] {
      ThumbnailOfNone(all[1..], id, path);
      assert all == [all[0]] + all[1..];
    }
  }

  lemma {:induction false} ThumbnailKeepsView(f: Filter, all: seq<Rec>, i: nat, path: string)
    requires i < |all|
    ensures Indices(f, all[i := all[i].(thumbnail := path)]) == Indices(f, all)
    decreases |all|
  {
    var n, r := |all| - 1, all[i := all[i].(thumbnail := path)];
    if i < n {
      ThumbnailKeepsView(f, all[..n], i, path);
      assert r[..n] == all[..n][i := all[i].(thumbnail := path)];
    } else {
      assert r[..n] == all[..n];
    }
  }
}
