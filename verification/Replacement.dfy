/**
 What a re-placement leaves behind. It asks the directories in turn and copies from the first holder it found
 when a copy was first needed, even once that one has dropped the file: this module says exactly which
 directories end up with the file, and exactly when the rest are not asked at all.
 */
module Replacement {
  import opened Types
  import opened Placement
  import opened DiskRuns
  import opened WriterLaws

  predicate Holds(directories: seq<SyncDirectory>, held: Holdings, k: nat)
    requires k < |directories|
  {
    directories[k].path in held
  }

  /** Belongs there by its tags. */
  predicate Belongs(directories: seq<SyncDirectory>, tags: set<TagId>, k: nat)
    requires k < |directories|
  {
    Takes(directories[k], tags)
  }

  /** A directory that is to be given the file. */
  predicate Needs(directories: seq<SyncDirectory>, tags: set<TagId>, held: Holdings, k: nat)
    requires k < |directories|
  {
    Belongs(directories, tags, k) && !Holds(directories, held, k)
  }

  /** No copy is left when directory `i` is asked: who held one was asked before and gave it up. */
  ghost predicate NoneLeft(directories: seq<SyncDirectory>, tags: set<TagId>, held: Holdings, i: nat) {
    forall j :: 0 <= j < |directories| && Holds(directories, held, j) ==> j < i && !Belongs(directories, tags, j)
  }

  /** Directory `g` is the first holder there is when `i` needs a copy. */
  ghost predicate FirstLeft(directories: seq<SyncDirectory>, tags: set<TagId>, held: Holdings, i: nat, g: nat) {
    i < |directories| && g < |directories| && Needs(directories, tags, held, i)
    && Holds(directories, held, g) && (i < g || Belongs(directories, tags, g))
    && forall j :: 0 <= j < g && Holds(directories, held, j) ==> j < i && !Belongs(directories, tags, j)
  }

  /** A copy was found at `i`, in `g`, which is then dropped, and `k` still needs one. */
  ghost predicate Loses(directories: seq<SyncDirectory>, tags: set<TagId>, held: Holdings, i: nat, g: nat, k: nat) {
    FirstLeft(directories, tags, held, i, g) && !Belongs(directories, tags, g)
    && g < k < |directories| && Needs(directories, tags, held, k)
  }

  // ---- on the way ----

  /** Before any copy was needed that there was: nothing was placed, only dropped. */
  ghost predicate Unsourced(directories: seq<SyncDirectory>, n: nat, tags: set<TagId>, held: Holdings, now: Holdings)
    requires n <= |directories|
  {
    (forall i :: 0 <= i < n && Needs(directories, tags, held, i) ==> NoneLeft(directories, tags, held, i))
    && forall k :: 0 <= k < n ==>
         (Holds(directories, now, k) <==> Holds(directories, held, k) && Belongs(directories, tags, k))
  }

  /** Since the copy in `g` was found at `i`: everyone asked from there on that belongs has the file. */
  ghost predicate Sourced(directories: seq<SyncDirectory>, n: nat, tags: set<TagId>, held: Holdings, now: Holdings,
                          i: nat, g: nat)
    requires n <= |directories|
  {
    i < n && FirstLeft(directories, tags, held, i, g)
    && (forall j :: 0 <= j < i && Needs(directories, tags, held, j) ==> NoneLeft(directories, tags, held, j))
    && (forall k :: 0 <= k < n ==>
          (Holds(directories, now, k) <==>
             Belongs(directories, tags, k) && (Holds(directories, held, k) || i <= k)))
    && (!Belongs(directories, tags, g) ==> forall k :: g < k < n ==> !Needs(directories, tags, held, k))
  }

  ghost predicate OnTheWay(directories: seq<SyncDirectory>, n: nat, tags: set<TagId>, held: Holdings)
    requires n <= |directories|
  {
    var s := Replaced(directories, n, tags, held);
    if !s.ok then exists i: nat, g: nat, k: nat :: k < n && Loses(directories, tags, held, i, g, k)
    else if s.source.None? then Unsourced(directories, n, tags, held, s.held)
    else
      exists i: nat, g: nat ::
        Sourced(directories, n, tags, held, s.held, i, g) && s.source == Some(directories[g].path)
  }

  lemma {:induction false} FirstHolderIs(directories: seq<SyncDirectory>, held: Holdings)
    ensures var first := FirstHolder(directories, held);
            if first.None? then forall j :: 0 <= j < |directories| ==> !Holds(directories, held, j)
            else exists g :: 0 <= g < |directories| && Holds(directories, held, g) && first.value == directories[g].path
                             && forall j :: 0 <= j < g ==> !Holds(directories, held, j)
  {
    if directories != [] && directories[0].path !in held {
      var rest := directories[1..];
      FirstHolderIs(rest, held);
      if FirstHolder(rest, held).Some? {
        var g :| 0 <= g < |rest| && Holds(rest, held, g) && FirstHolder(rest, held).value == rest[g].path
                 && forall j :: 0 <= j < g ==> !Holds(rest, held, j);
        forall j | 0 <= j < g + 1 ensures !Holds(directories, held, j) {
          if j > 0 { assert !Holds(rest, held, j - 1); }
        }
        assert Holds(directories, held, g + 1);
      } else {
        forall j | 0 <= j < |directories| ensures !Holds(directories, held, j) {
          if j > 0 { assert !Holds(rest, held, j - 1); }
        }
      }
    }
  }

  /** Who is still to be asked holds what it held. */
  lemma LaterUntouched(directories: seq<SyncDirectory>, n: nat, tags: set<TagId>, held: Holdings, k: nat)
    requires DistinctPaths(directories) && n <= k < |directories|
    ensures Holds(directories, Replaced(directories, n, tags, held).held, k) <==> Holds(directories, held, k)
  {
    ReplacedCopies(directories, n, tags, held, directories[k].path);
  }

  /** A copy is needed for the first time when there is one. */
  lemma SourceFound(directories: seq<SyncDirectory>, n: nat, tags: set<TagId>, held: Holdings, now: Holdings,
                    after: Holdings, g: nat)
    requires DistinctPaths(directories) && n < |directories| && g < |directories|
    requires Unsourced(directories, n, tags, held, now) && Needs(directories, tags, held, n)
    requires forall k :: n <= k < |directories| ==> (Holds(directories, now, k) <==> Holds(directories, held, k))
    requires Holds(directories, now, g) && forall j :: 0 <= j < g ==> !Holds(directories, now, j)
    requires directories[n].path in after
             && forall path :: path != directories[n].path ==> (path in now <==> path in after)
    ensures Sourced(directories, n + 1, tags, held, after, n, g)
  {
  }

  /** None is left when a copy is needed: the directory goes without. */
  lemma NoneFound(directories: seq<SyncDirectory>, n: nat, tags: set<TagId>, held: Holdings, now: Holdings)
    requires DistinctPaths(directories) && n < |directories|
    requires Unsourced(directories, n, tags, held, now) && Needs(directories, tags, held, n)
    requires forall k :: n <= k < |directories| ==> (Holds(directories, now, k) <==> Holds(directories, held, k))
    requires forall j :: 0 <= j < |directories| ==> !Holds(directories, now, j)
    ensures Unsourced(directories, n + 1, tags, held, now)
  {
  }

  /** A directory that needs nothing keeps the file if it belongs there, and drops it otherwise. */
  lemma OneMore(directories: seq<SyncDirectory>, n: nat, tags: set<TagId>, held: Holdings, now: Holdings,
                after: Holdings)
    requires DistinctPaths(directories) && n < |directories| && !Needs(directories, tags, held, n)
    requires forall path :: path != directories[n].path ==> (path in now <==> path in after)
    requires Holds(directories, after, n) <==> Belongs(directories, tags, n)
    ensures Unsourced(directories, n, tags, held, now)
            && (Belongs(directories, tags, n) ==> Holds(directories, held, n)) ==>
              Unsourced(directories, n + 1, tags, held, after)
    ensures forall i: nat, g: nat :: Sourced(directories, n, tags, held, now, i, g) ==>
              Sourced(directories, n + 1, tags, held, after, i, g)
  {
  }

  /** With a copy found before: it is used again, unless it was dropped meanwhile. */
  lemma SourceUsed(directories: seq<SyncDirectory>, n: nat, tags: set<TagId>, held: Holdings, now: Holdings, i: nat,
                   g: nat)
    requires DistinctPaths(directories) && n < |directories| && Needs(directories, tags, held, n)
    requires Sourced(directories, n, tags, held, now, i, g)
    requires forall k :: n <= k < |directories| ==> (Holds(directories, now, k) <==> Holds(directories, held, k))
    ensures !Holds(directories, now, g) ==> Loses(directories, tags, held, i, g, n)
    ensures forall after: Holdings ::
              Holds(directories, now, g) && directories[n].path in after
              && (forall path :: path != directories[n].path ==> (path in now <==> path in after))
              ==> Sourced(directories, n + 1, tags, held, after, i, g)
  {
  }

  lemma {:induction false} ReplacedOnTheWay(directories: seq<SyncDirectory>, n: nat, tags: set<TagId>, held: Holdings)
    requires DistinctPaths(directories) && n <= |directories|
    ensures OnTheWay(directories, n, tags, held)
  {
    if n > 0 {
      ReplacedOnTheWay(directories, n - 1, tags, held);
      var s := Replaced(directories, n - 1, tags, held);
      if s.ok { StepOnTheWay(directories, n - 1, tags, held); }
    }
  }

  lemma StepOnTheWay(directories: seq<SyncDirectory>, n: nat, tags: set<TagId>, held: Holdings)
    requires DistinctPaths(directories) && n < |directories| && OnTheWay(directories, n, tags, held)
    requires Replaced(directories, n, tags, held).ok
    ensures OnTheWay(directories, n + 1, tags, held)
  {
    var s, after := Replaced(directories, n, tags, held), Replaced(directories, n + 1, tags, held);
    forall k | n <= k < |directories| ensures Holds(directories, s.held, k) <==> Holds(directories, held, k) {
      LaterUntouched(directories, n, tags, held, k);
    }
    assert Wants(directories[n], tags) <==> Belongs(directories, tags, n);
    if !Needs(directories, tags, held, n) {
      OneMore(directories, n, tags, held, s.held, after.held);
      assert after.ok && after.source == s.source;
      if s.source.Some? {
        var i: nat, g: nat :| Sourced(directories, n, tags, held, s.held, i, g)
                              && s.source == Some(directories[g].path);
        assert Sourced(directories, n + 1, tags, held, after.held, i, g);
      }
    } else if s.source.Some? {
      var i: nat, g: nat :| Sourced(directories, n, tags, held, s.held, i, g) && s.source == Some(directories[g].path);
      SourceUsed(directories, n, tags, held, s.held, i, g);
      if Holds(directories, s.held, g) {
        assert after == Replacing(s.held[directories[n].path := s.held[directories[g].path]], s.source, true);
        assert Sourced(directories, n + 1, tags, held, after.held, i, g);
      } else {
        assert !after.ok && Loses(directories, tags, held, i, g, n);
      }
    } else {
      FirstHolderIs(directories, s.held);
      if FirstHolder(directories, s.held).Some? {
        var g: nat :| g < |directories| && Holds(directories, s.held, g)
                      && FirstHolder(directories, s.held).value == directories[g].path
                      && forall j :: 0 <= j < g ==> !Holds(directories, s.held, j);
        assert after == Replacing(s.held[directories[n].path := s.held[directories[g].path]],
                                  Some(directories[g].path), true);
        SourceFound(directories, n, tags, held, s.held, after.held, g);
      } else {
        NoneFound(directories, n, tags, held, s.held);
        assert after == s;
      }
    }
  }

  // ---- what is left ----

  /** With a copy found at `i`, a directory without gets one exactly if it is asked from there on. */
  lemma SourcedGives(directories: seq<SyncDirectory>, tags: set<TagId>, held: Holdings, now: Holdings, i: nat, g: nat,
                     k: nat)
    requires Sourced(directories, |directories|, tags, held, now, i, g)
    requires k < |directories| && Needs(directories, tags, held, k)
    ensures i <= k <==> exists j :: 0 <= j < |directories| && Holds(directories, held, j)
                                    && (k < j || Belongs(directories, tags, j))
  {
    if i <= k { assert Holds(directories, held, g) && (k < g || Belongs(directories, tags, g)); }
  }

  lemma SourcedLosesNothing(directories: seq<SyncDirectory>, tags: set<TagId>, held: Holdings, now: Holdings, i: nat,
                            g: nat, x: nat, y: nat, k: nat)
    requires Sourced(directories, |directories|, tags, held, now, i, g)
    ensures !Loses(directories, tags, held, x, y, k)
  {
  }

  lemma UnsourcedLosesNothing(directories: seq<SyncDirectory>, tags: set<TagId>, held: Holdings, now: Holdings, x: nat,
                              y: nat, k: nat)
    requires Unsourced(directories, |directories|, tags, held, now)
    ensures !Loses(directories, tags, held, x, y, k)
  {
  }

  /**
   A re-placement that asks every directory leaves the file exactly where it belongs and was, or could be copied
   from one that keeps it or is asked later.
   */
  lemma ReplacedIs(directories: seq<SyncDirectory>, tags: set<TagId>, held: Holdings, k: nat)
    requires DistinctPaths(directories) && k < |directories|
    requires Replaced(directories, |directories|, tags, held).ok
    ensures directories[k].path in Replaced(directories, |directories|, tags, held).held <==>
              Belongs(directories, tags, k)
              && (Holds(directories, held, k)
                  || exists j :: 0 <= j < |directories| && Holds(directories, held, j)
                                 && (k < j || Belongs(directories, tags, j)))
  {
    ReplacedOnTheWay(directories, |directories|, tags, held);
    var s := Replaced(directories, |directories|, tags, held);
    assert Holds(directories, s.held, k) <==> directories[k].path in s.held;
    if s.source.Some? {
      var i: nat, g: nat :| Sourced(directories, |directories|, tags, held, s.held, i, g);
      if Needs(directories, tags, held, k) { SourcedGives(directories, tags, held, s.held, i, g, k); }
    } else {
      assert Unsourced(directories, |directories|, tags, held, s.held);
      if Needs(directories, tags, held, k) {
        forall j | 0 <= j < |directories| && Holds(directories, held, j)
          ensures j < k && !Belongs(directories, tags, j)
        {
          assert NoneLeft(directories, tags, held, k);
        }
      }
    }
  }

  /** It stops short exactly when the copy it works from is dropped and another directory still needs it. */
  lemma StopsShort(directories: seq<SyncDirectory>, tags: set<TagId>, held: Holdings)
    requires DistinctPaths(directories)
    ensures !Replaced(directories, |directories|, tags, held).ok <==>
              exists i: nat, g: nat, k: nat :: Loses(directories, tags, held, i, g, k)
  {
    ReplacedOnTheWay(directories, |directories|, tags, held);
    var s := Replaced(directories, |directories|, tags, held);
    if s.ok {
      forall x: nat, y: nat, k: nat ensures !Loses(directories, tags, held, x, y, k) {
        if s.source.Some? {
          var i: nat, g: nat :| Sourced(directories, |directories|, tags, held, s.held, i, g);
          SourcedLosesNothing(directories, tags, held, s.held, i, g, x, y, k);
        } else {
          UnsourcedLosesNothing(directories, tags, held, s.held, x, y, k);
        }
      }
    }
  }

  // ---- the other commands ----

  /** What each command leaves: a create only where nothing is tracked, a change anywhere, a removal but in a vault. */
  lemma ExecutedIs(directories: seq<SyncDirectory>, file: FileId, held: Holdings, q: Queued)
    requires !q.command.ApplyPlacement?
    ensures Executed(directories, file, held, q)
         == if q.command.file != file then held else
            match q.command
            case CreateFile(_, _, _, directory) => if directory in held then held else held[directory := q.bytes]
            case ChangeFile(_, _, _, directory) => held[directory := q.bytes]
            case MoveFile(_, _, _) => held
            case RemoveFile(_, directory) =>
              if exists d <- directories :: d.path == directory && d.kind.Universal? && d.kind.keepDeleted
              then held else map path | path in held && path != directory :: held[path]
            case ApplyPlacement(_, _, _) => held
  {
  }
}
