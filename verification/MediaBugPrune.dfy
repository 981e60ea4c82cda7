/** switch_core_media_bug_prune and switch_core_media_bug_close (src/switch_core_media_bug.c). */
module MediaBugPrune {

  class Bug {
    const prune: bool         // SMBF_PRUNE; close callbacks are taken not to change it
    const hasCallback: bool
    var locked: bool          // SMBF_LOCK
    var threadId: nat         // 0: not bound to a thread
    var ready: bool
    var next: Bug?

    constructor (prune: bool, hasCallback: bool, locked: bool, threadId: nat)
      ensures this.prune == prune && next == null && this.hasCallback == hasCallback
    {
      this.prune, this.hasCallback, this.locked, this.threadId := prune, hasCallback, locked, threadId;
      ready, next := true, null;
    }
  }

  ghost function Flagged(s: seq<Bug>): seq<Bug> {
    if s == [] then [] else (if s[0].prune then [s[0]] else []) + Flagged(s[1..])
  }

  ghost function Unflagged(s: seq<Bug>): seq<Bug> {
    if s == [] then [] else (if s[0].prune then [] else [s[0]]) + Unflagged(s[1..])
  }

  ghost predicate NoneFlagged(s: seq<Bug>) { forall i :: 0 <= i < |s| ==> !s[i].prune }

  /** Every bug is on exactly one side, the flagged ones on theirs. */
  lemma {:induction false} Sides(s: seq<Bug>)
    ensures forall b :: b in Flagged(s) <==> b in s && b.prune
    ensures forall b :: b in Unflagged(s) <==> b in s && !b.prune
    ensures |Flagged(s)| + |Unflagged(s)| == |s|
  {
    if s != [] {
      Sides(s[1..]);
      assert s == [s[0]] + s[1..];
    }
  }

  lemma {:induction false} AllKept(s: seq<Bug>)
    requires NoneFlagged(s)
    ensures Flagged(s) == [] && Unflagged(s) == s
  {
    if s != [] {
      AllKept(s[1..]);
      assert s == [s[0]] + s[1..];
    }
  }

  /** Removing the first flagged bug removes the head of the flagged ones and keeps the others. */
  lemma {:induction false} RemoveFirst(s: seq<Bug>, k: nat)
    requires k < |s| && s[k].prune && NoneFlagged(s[..k])
    ensures Flagged(s) == [s[k]] + Flagged(s[..k] + s[k + 1..])
    ensures Unflagged(s) == Unflagged(s[..k] + s[k + 1..])
  {
    var t := s[..k] + s[k + 1..];
    if k == 0 {
      assert t == s[1..];
    } else {
      assert !s[..k][0].prune;
      assert s[1..][..k - 1] == s[..k][1..];
      assert t[1..] == s[1..][..k - 1] + s[1..][k..];
      RemoveFirst(s[1..], k - 1);
    }
  }

  class SessionBugs {
    var bugs: Bug?
    var codecReady: bool
    var closed: seq<Bug>      // bugs handed to destroy, in order
    ghost var list: seq<Bug>
    ghost var repr: set<Bug>

    ghost predicate Valid()
      reads this, repr
    {
      && (forall i, j :: 0 <= i < j < |list| ==> list[i] != list[j])
      && (forall k :: 0 <= k < |list| ==> list[k] in repr)
      && (forall k :: 0 <= k < |list| - 1 ==> list[k].next == list[k + 1])
      && (list != [] ==> list[|list| - 1].next == null)
      && bugs == if list == [] then null else list[0]
    }

    method CloseBug(bp: Bug, self: nat) returns (ok: bool)
      modifies this`closed, bp`ready
      ensures ok <==> (bp.threadId == 0 || bp.threadId == self) && !bp.locked
      ensures closed == if ok then old(closed) + [bp] else old(closed)
      ensures bp.ready == (old(bp.ready) && !(ok && bp.hasCallback))
    {
      if (bp.threadId != 0 && bp.threadId != self) || bp.locked {
        return false;
      }
      if bp.hasCallback {
        bp.ready := false;
      }
      closed := closed + [bp];
      ok := true;
    }

    /** The lock and the thread binding are dropped first, so close cannot refuse. */
    method Dispose(bp: Bug, self: nat)
      modifies this`closed, bp`locked, bp`threadId, bp`ready
      ensures closed == old(closed) + [bp] && !bp.locked && bp.threadId == 0
      ensures bp.ready == (old(bp.ready) && !bp.hasCallback)
    {
      bp.locked := false;
      bp.threadId := 0;
      var ok := CloseBug(bp, self);
      assert ok;
    }

    method CutOut(bp: Bug, last: Bug?, ghost k: nat)
      requires Valid() && k < |list| && bp == list[k] && last == if k == 0 then null else list[k - 1]
      modifies this`bugs, this`list, repr`next
      ensures Valid() && list == old(list)[..k] + old(list)[k + 1..]
    {
      if last != null {
        last.next := bp.next;
      } else {
        bugs := bp.next;
      }
      list := list[..k] + list[k + 1..];
    }

    /** One scan from the head.  `stale` is the value `last` still has from the previous scan:
        either NULL, or the list now starts with an unflagged bug, which overwrites it at once. */
    method Unlink(stale: Bug?) returns (bp: Bug?, last: Bug?)
      requires Valid() && (stale == null || (list != [] && !list[0].prune))
      modifies this`bugs, this`list, this`codecReady, repr
      ensures Valid() && repr == old(repr)
      ensures last == null || (list != [] && !list[0].prune)
      ensures FirstRemoved(old(list), list, bp) && (bp == null ==> NoneFlagged(list))
      ensures codecReady == (old(codecReady) && list != [])
      ensures forall b :: b in repr ==> b.locked == old(b.locked) && b.threadId == old(b.threadId)
    {
      bp, last := null, stale;
      if bugs != null {
        bp := bugs;
        ghost var k := 0;
        while bp != null
          invariant Valid() && list == old(list) && codecReady == old(codecReady)
          invariant forall b :: b in repr ==> b.locked == old(b.locked) && b.threadId == old(b.threadId)
          invariant 0 <= k <= |list| && bp == (if k < |list| then list[k] else null)
          invariant NoneFlagged(list[..k]) && last == (if k == 0 then stale else list[k - 1])
          decreases |list| - k
        {
          if bp.prune {
            CutOut(bp, last, k);
            break;
          }
          last := bp;
          bp := bp.next;
          k := k + 1;
        }
      }
      if bugs == null && codecReady {
        codecReady := false;
      }
    }

    /** From one `top` label to the next. */
    method PruneOne(stale: Bug?, self: nat) returns (more: bool, last: Bug?)
      requires Valid() && (stale == null || (list != [] && !list[0].prune))
      modifies this, repr
      ensures Valid() && repr == old(repr) && (last == null || (list != [] && !list[0].prune))
      ensures Unflagged(list) == Unflagged(old(list))
      ensures more ==> |list| == |old(list)| - 1
      ensures if more then |Flagged(old(list))| == |Flagged(list)| + 1
                           && closed + Flagged(list) == old(closed) + Flagged(old(list))
              else list == old(list) && NoneFlagged(list) && closed == old(closed)
      ensures codecReady == (old(codecReady) && list != [])
    {
      hide Flagged, Unflagged, FirstRemoved, NoneFlagged;
      ghost var done := closed;
      var bp: Bug?;
      bp, last := Unlink(stale);
      NextRemoved(old(list), list, bp);
      more := bp != null;
      if bp != null {
        Dispose(bp, self);
        Shift(done, bp, Flagged(list));
      }
    }

    /** Removes exactly the flagged bugs, keeps the others in order, closes each removed bug once
        and in list order, and returns how many there were. */
    method Prune(self: nat) returns (ttl: nat)
      requires Valid()
      modifies this, repr
      ensures Valid() && repr == old(repr)
      ensures list == Unflagged(old(list)) && NoneFlagged(list)
      ensures closed == old(closed) + Flagged(old(list)) && ttl == |Flagged(old(list))|
      ensures codecReady == (old(codecReady) && list != [])
    {
      hide Flagged, Unflagged;
      var last: Bug?, more := null, true;
      ttl := 0;
      while more
        invariant Valid() && repr == old(repr) && (last == null || (list != [] && !list[0].prune))
        invariant !more ==> NoneFlagged(list) && codecReady == (old(codecReady) && list != [])
        invariant codecReady == old(codecReady) || list == [] || !old(codecReady)
        invariant codecReady ==> old(codecReady)
        invariant Unflagged(list) == Unflagged(old(list))
        invariant closed + Flagged(list) == old(closed) + Flagged(old(list))
        invariant ttl + |Flagged(list)| == |Flagged(old(list))|
        decreases |list|, more
      {
        more, last := PruneOne(last, self);
        if more {
          ttl := ttl + 1;
        }
      }
      AllKept(list);
    }
  }

  lemma Shift(a: seq<Bug>, b: Bug, c: seq<Bug>)
    ensures (a + [b]) + c == a + ([b] + c)
  {
  }

  /** `bp` was the first flagged bug and is gone, or there was none. */
  ghost predicate FirstRemoved(before: seq<Bug>, after: seq<Bug>, bp: Bug?) {
    if bp == null then after == before
    else exists k ::
           && 0 <= k < |before| && NoneFlagged(before[..k]) && bp == before[k] && bp.prune
           && after == before[..k] + before[k + 1..]
  }

  lemma NextRemoved(before: seq<Bug>, after: seq<Bug>, bp: Bug?)
    requires FirstRemoved(before, after, bp)
    ensures Unflagged(after) == Unflagged(before)
    ensures Flagged(before) == (if bp != null then [bp] else []) + Flagged(after)
    ensures bp != null ==> bp in before && |after| == |before| - 1
  {
    if bp != null {
      var k :| && 0 <= k < |before| && NoneFlagged(before[..k]) && bp == before[k] && bp.prune
               && after == before[..k] + before[k + 1..];
      RemoveFirst(before, k);
    }
  }
}
