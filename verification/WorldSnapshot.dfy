/**
 The pod's copy of a world that may be in use (`dsh_world_export.py`): stat every
 file, copy every file, stat them again, and try again while something changed.

 The game writes whenever it likes.  `past` is history, every state the files have
 been in; a read at any moment sees one of them.  Assumed of the game, and only
 where a lemma says so: a write gives the file a size and time it never had before.
 */
module WorldSnapshot {
  import opened Options
  import opened WorldBox

  datatype Source = LevelDat | RegionFile(region: Region)

  datatype File = File(content: seq<Byte>, mtime: int)

  /** What `stat` tells: the size and the time. */
  type Stamp = (nat, int)

  type Files = map<Source, File>

  function StampOf(f: File): Stamp { (|f.content|, f.mtime) }

  /** The file changed, or appeared, on the way to this state. */
  ghost predicate Written(past: seq<Files>, s: Source, t: nat)
    requires 0 < t < |past|
  {
    s in past[t] && (s !in past[t - 1] || past[t - 1][s] != past[t][s])
  }

  /** As long, and last written at the same time. */
  predicate SizeAndTime(f: File, g: File) { |f.content| == |g.content| && f.mtime == g.mtime }

  ghost predicate NeverBefore(past: seq<Files>, s: Source, t: nat)
    requires t < |past| && s in past[t]
  {
    forall i | 0 <= i < t && s in past[i] :: !SizeAndTime(past[t][s], past[i][s])
  }

  /** The assumption: a written file has a size and time it never had before. */
  ghost predicate WritesAreFresh(past: seq<Files>) {
    forall s, t | 0 < t < |past| && Written(past, s, t) :: NeverBefore(past, s, t)
  }

  /**
   A copy made between two moments, in any pieces: each byte as it was at some moment
   in between, and the end where the file had at some moment no more.  A file cut short
   under the copy may leave it of a length the file never had.
   */
  ghost predicate CopiedBetween(past: seq<Files>, s: Source, from: nat, to: nat, out: seq<Byte>)
    requires to < |past|
  {
    && (exists t :: from <= t <= to && s in past[t] && |past[t][s].content| <= |out|)
    && forall k | 0 <= k < |out| :: ByteSeen(past, s, from, to, k, out[k])
  }

  ghost predicate ByteSeen(past: seq<Files>, s: Source, from: nat, to: nat, k: nat, b: Byte)
    requires to < |past|
  {
    exists t :: from <= t <= to && s in past[t] && k < |past[t][s].content| && past[t][s].content[k] == b
  }

  ghost predicate StampSeen(past: seq<Files>, s: Source, at: nat, stamp: Stamp) {
    at < |past| && s in past[at] && |past[at][s].content| == stamp.0 && past[at][s].mtime == stamp.1
  }

  /** With fresh writes, a file with the same stamp at two moments was the same file at every moment between. */
  lemma {:induction false} SameStampSameFile(past: seq<Files>, s: Source, i: nat, k: nat, j: nat)
    requires WritesAreFresh(past) && i <= k <= j < |past|
    requires s in past[i] && s in past[j]
    requires |past[i][s].content| == |past[j][s].content| && past[i][s].mtime == past[j][s].mtime
    ensures s in past[k] && past[k][s] == past[i][s]
    decreases j
  {
    if i < j {
      assert Written(past, s, j) ==> NeverBefore(past, s, j);
      SameStampSameFile(past, s, i, if k < j then k else j - 1, j - 1);
    }
  }

  /** A copy between two equal stamps is the file as it was throughout. */
  lemma CopyIsTheFile(past: seq<Files>, s: Source, before: nat, from: nat, to: nat, after: nat, stamp: Stamp, out: seq<Byte>)
    requires WritesAreFresh(past) && before <= from <= to <= after < |past|
    requires StampSeen(past, s, before, stamp) && StampSeen(past, s, after, stamp)
    requires CopiedBetween(past, s, from, to, out)
    ensures s in past[from] && past[from][s].content == out
  {
    forall t | from <= t <= to
      ensures s in past[t] && past[t][s] == past[before][s]
    {
      SameStampSameFile(past, s, before, t, after);
    }
    var content := past[from][s].content;
    if out != [] {
      assert ByteSeen(past, s, from, to, |out| - 1, out[|out| - 1]);
    }
    assert |content| == |out|;
    forall k | 0 <= k < |out|
      ensures out[k] == content[k]
    {
      assert ByteSeen(past, s, from, to, k, out[k]);
    }
    assert content == out;
  }

  /** The assumption is needed: a write that keeps size and time leaves equal stamps around a copy of no moment at all. */
  lemma AStaleStampHidesAChange()
    ensures exists past: seq<Files>, stamp, out ::
              && |past| == 2 && !WritesAreFresh(past)
              && StampSeen(past, LevelDat, 0, stamp) && StampSeen(past, LevelDat, 1, stamp)
              && CopiedBetween(past, LevelDat, 0, 1, out)
              && past[0][LevelDat].content != out && past[1][LevelDat].content != out
  {
    var past: seq<Files> := [map[LevelDat := File([0, 0], 7)], map[LevelDat := File([1, 1], 7)]];
    var out: seq<Byte> := [0, 1];
    assert past[0][LevelDat].content[0] == out[0] && past[1][LevelDat].content[1] == out[1];
    assert ByteSeen(past, LevelDat, 0, 1, 0, out[0]) && ByteSeen(past, LevelDat, 0, 1, 1, out[1]);
    assert |past[0][LevelDat].content| <= |out|;
    assert SizeAndTime(past[1][LevelDat], past[0][LevelDat]);
    assert Written(past, LevelDat, 1) && !NeverBefore(past, LevelDat, 1);
    assert StampSeen(past, LevelDat, 0, (2, 7)) && StampSeen(past, LevelDat, 1, (2, 7));
    assert CopiedBetween(past, LevelDat, 0, 1, out);
  }

  /** The mounted world, with the game writing to it. */
  class World {
    var files: Files
    ghost var past: seq<Files>

    constructor (files: Files)
      ensures Valid() && this.files == files && past == [files]
    {
      this.files, past := files, [files];
    }

    ghost predicate Valid()
      reads this
    {
      past != [] && past[|past| - 1] == files
    }

    /** Any writes, at any moment. */
    method GameWrites()
      requires Valid()
      modifies this
      ensures Valid() && old(past) <= past
    {
    }

    method Stat(s: Source) returns (stamp: Option<Stamp>, ghost at: nat)
      requires Valid()
      modifies this
      ensures Valid() && old(past) <= past && |old(past)| - 1 <= at < |past|
      ensures stamp.Some? ==> StampSeen(past, s, at, stamp.value)
      ensures stamp.None? <==> s !in past[at]
    {
      GameWrites();
      at := |past| - 1;
      stamp := if s in files then Some(StampOf(files[s])) else None;
    }

    /** `copyfile`: it reads in pieces of its own choosing; a file that is gone raises. */
    method CopyFile(s: Source) returns (out: Option<seq<Byte>>, ghost at: nat)
      requires Valid()
      modifies this
      ensures Valid() && old(past) <= past && |old(past)| - 1 <= at < |past|
      ensures out.Some? ==> CopiedBetween(past, s, |old(past)| - 1, |past| - 1, out.value)
      ensures out.None? ==> s !in past[at]
    {
      GameWrites();
      at := |past| - 1;
      out := if s in files then Some(files[s].content) else None;
      if out.Some? {
        assert forall k | 0 <= k < |out.value| :: ByteSeen(past, s, |old(past)| - 1, at, k, past[at][s].content[k]);
      }
    }
  }

  lemma LongerPast(past: seq<Files>, longer: seq<Files>, s: Source, from: nat, to: nat, to': nat, out: seq<Byte>)
    requires past <= longer && to < |past| && to <= to' < |longer| && CopiedBetween(past, s, from, to, out)
    ensures CopiedBetween(longer, s, from, to', out)
  {
    var t :| from <= t <= to && s in past[t] && |past[t][s].content| <= |out|;
    assert longer[t] == past[t];
    forall k | 0 <= k < |out|
      ensures ByteSeen(longer, s, from, to', k, out[k])
    {
      assert ByteSeen(past, s, from, to, k, out[k]);
      var u :| from <= u <= to && s in past[u] && k < |past[u][s].content| && past[u][s].content[k] == out[k];
      assert longer[u] == past[u];
    }
  }

  /** A copy that starts later was also made in the longer time. */
  lemma EarlierStart(past: seq<Files>, s: Source, from: nat, start: nat, to: nat, out: seq<Byte>)
    requires from <= start && to < |past| && CopiedBetween(past, s, start, to, out)
    ensures CopiedBetween(past, s, from, to, out)
  {
    forall k | 0 <= k < |out|
      ensures ByteSeen(past, s, from, to, k, out[k])
    {
      assert ByteSeen(past, s, start, to, k, out[k]);
    }
  }

  function Named(sources: seq<Source>): set<Source> { set s | s in sources }

  /** One of the files was not there at some moment. */
  ghost predicate Gone(past: seq<Files>, sources: seq<Source>, from: nat) {
    exists s | s in sources :: Missing(past, s, from)
  }

  ghost predicate Missing(past: seq<Files>, s: Source, from: nat) {
    exists t :: from <= t < |past| && s !in past[t]
  }

  lemma GoneLater(past: seq<Files>, longer: seq<Files>, sources: seq<Source>, from: nat, start: nat)
    requires past <= longer && start <= from && Gone(past, sources, from)
    ensures Gone(longer, sources, start)
  {
    var s :| s in sources && Missing(past, s, from);
    var t :| from <= t < |past| && s !in past[t];
    assert longer[t] == past[t];
    assert Missing(longer, s, start);
  }

  /** The copies of these files, all made in this time. */
  ghost predicate AllCopied(past: seq<Files>, dest: map<Source, seq<Byte>>, from: nat, to: nat)
    requires to < |past|
  {
    forall s | s in dest :: CopiedBetween(past, s, from, to, dest[s])
  }

  lemma OneMoreCopied(earlier: seq<Files>, past: seq<Files>, dest: map<Source, seq<Byte>>, from: nat, s: Source, out: seq<Byte>)
    requires earlier <= past && from < |earlier| && AllCopied(earlier, dest, from, |earlier| - 1)
    requires CopiedBetween(past, s, |earlier| - 1, |past| - 1, out)
    ensures AllCopied(past, dest[s := out], from, |past| - 1)
  {
    EarlierStart(past, s, from, |earlier| - 1, |past| - 1, out);
    forall x | x in dest
      ensures CopiedBetween(past, x, from, |past| - 1, dest[x])
    {
      LongerPast(earlier, past, x, from, |earlier| - 1, |past| - 1, dest[x]);
    }
  }

  // --- one attempt ----------------------------------------------------------------------

  ghost predicate StampedBetween(past: seq<Files>, stamps: map<Source, Stamp>, ats: map<Source, nat>, from: nat, to: nat) {
    stamps.Keys == ats.Keys
    && forall s | s in stamps :: from <= ats[s] <= to && StampSeen(past, s, ats[s], stamps[s])
  }

  /** `{s: _stat(s) for s in sources}`; a file that is gone raises. */
  method StatAll(world: World, sources: seq<Source>)
    returns (stamps: Option<map<Source, Stamp>>, ghost ats: map<Source, nat>)
    requires world.Valid()
    modifies world
    ensures world.Valid() && old(world.past) <= world.past
    ensures stamps.None? ==> Gone(world.past, sources, |old(world.past)| - 1)
    ensures stamps.Some? ==>
              stamps.value.Keys == Named(sources)
              && StampedBetween(world.past, stamps.value, ats, |old(world.past)| - 1, |world.past| - 1)
  {
    var m: map<Source, Stamp> := map[];
    ats := map[];
    ghost var start := world.past;
    for i := 0 to |sources|
      invariant world.Valid() && start <= world.past
      invariant m.Keys == Named(sources[..i])
      invariant StampedBetween(world.past, m, ats, |start| - 1, |world.past| - 1)
    {
      ghost var earlier := world.past;
      var stamp;
      ghost var at;
      stamp, at := world.Stat(sources[i]);
      if stamp.None? {
        assert Missing(world.past, sources[i], |start| - 1);
        return None, ats;
      }
      forall s | s in m
        ensures StampSeen(world.past, s, ats[s], m[s])
      {
        assert StampSeen(earlier, s, ats[s], m[s]);
      }
      m, ats := m[sources[i] := stamp.value], ats[sources[i] := at];
      assert sources[..i + 1] == sources[..i] + [sources[i]];
    }
    assert sources[..|sources|] == sources;
    stamps := Some(m);
  }

  method CopyAll(world: World, sources: seq<Source>) returns (dest: Option<map<Source, seq<Byte>>>)
    requires world.Valid()
    modifies world
    ensures world.Valid() && old(world.past) <= world.past
    ensures dest.None? ==> Gone(world.past, sources, |old(world.past)| - 1)
    ensures dest.Some? ==>
              (forall s :: s in dest.value <==> s in sources)
              && AllCopied(world.past, dest.value, |old(world.past)| - 1, |world.past| - 1)
  {
    var m: map<Source, seq<Byte>> := map[];
    ghost var start := world.past;
    for i := 0 to |sources|
      invariant world.Valid() && start <= world.past
      invariant forall s :: s in m <==> s in sources[..i]
      invariant AllCopied(world.past, m, |start| - 1, |world.past| - 1)
    {
      ghost var earlier := world.past;
      var out;
      ghost var at;
      out, at := world.CopyFile(sources[i]);
      if out.None? {
        assert Missing(world.past, sources[i], |start| - 1);
        return None;
      }
      OneMoreCopied(earlier, world.past, m, |start| - 1, sources[i], out.value);
      m := m[sources[i] := out.value];
      assert sources[..i + 1] == sources[..i] + [sources[i]];
    }
    assert sources[..|sources|] == sources;
    dest := Some(m);
  }

  /** The destination holds what all the sources held at one moment. */
  ghost predicate OneMoment(past: seq<Files>, dest: map<Source, seq<Byte>>, at: nat) {
    at < |past| && forall s | s in dest :: s in past[at] && past[at][s].content == dest[s]
  }

  /** One file, copied between two equal stamps. */
  lemma SameStampOneMoment(past: seq<Files>, statted: seq<Files>, done: seq<Files>, s: Source, stamp: Stamp,
                           before: nat, after: nat, out: seq<Byte>)
    requires WritesAreFresh(past) && statted != [] && statted <= done <= past
    requires StampSeen(statted, s, before, stamp) && StampSeen(past, s, after, stamp) && |done| - 1 <= after
    requires CopiedBetween(done, s, |statted| - 1, |done| - 1, out)
    ensures s in past[|statted| - 1] && past[|statted| - 1][s].content == out
  {
    StampLasts(statted, past, s, before, stamp);
    LongerPast(done, past, s, |statted| - 1, |done| - 1, |done| - 1, out);
    CopyIsTheFile(past, s, before, |statted| - 1, |done| - 1, after, stamp, out);
  }

  /** The same stamps before and after: the copies are of the moment the first stamps were complete. */
  lemma SameStampsOneMoment(past: seq<Files>, statted: seq<Files>, done: seq<Files>, stamps: map<Source, Stamp>,
                            befores: map<Source, nat>, afters: map<Source, nat>, dest: map<Source, seq<Byte>>, from: nat)
    requires WritesAreFresh(past) && statted != [] && statted <= done <= past
    requires StampedBetween(statted, stamps, befores, from, |statted| - 1)
    requires StampedBetween(past, stamps, afters, |done| - 1, |past| - 1)
    requires dest.Keys == stamps.Keys && AllCopied(done, dest, |statted| - 1, |done| - 1)
    ensures OneMoment(past, dest, |statted| - 1)
  {
    forall s | s in dest
      ensures s in past[|statted| - 1] && past[|statted| - 1][s].content == dest[s]
    {
      SameStampOneMoment(past, statted, done, s, stamps[s], befores[s], afters[s], dest[s]);
    }
  }

  lemma StampLasts(past: seq<Files>, longer: seq<Files>, s: Source, at: nat, stamp: Stamp)
    requires past <= longer && StampSeen(past, s, at, stamp)
    ensures StampSeen(longer, s, at, stamp)
  {
    assert longer[at] == past[at];
  }

  /** Nothing was written from this moment on. */
  ghost predicate Quiet(past: seq<Files>, from: nat) {
    from < |past| && forall t | from <= t < |past| :: past[t] == past[from]
  }

  lemma QuietStampsAgree(past: seq<Files>, statted: seq<Files>, before: map<Source, Stamp>, befores: map<Source, nat>,
                         after: map<Source, Stamp>, afters: map<Source, nat>, from: nat, to: nat)
    requires Quiet(past, from) && from < |statted| && statted <= past && from <= to && before.Keys == after.Keys
    requires StampedBetween(statted, before, befores, from, |statted| - 1)
    requires StampedBetween(past, after, afters, to, |past| - 1)
    ensures before == after
  {
    forall s | s in before
      ensures before[s] == after[s]
    {
      assert StampSeen(statted, s, befores[s], before[s]) && StampSeen(past, s, afters[s], after[s]);
      assert past[befores[s]] == statted[befores[s]] == past[from] == past[afters[s]];
    }
  }

  /** Each file was there at its moment, in this time. */
  ghost predicate Looked(past: seq<Files>, sources: seq<Source>, ats: map<Source, nat>, from: nat, to: nat) {
    ats.Keys == Named(sources) && to < |past| && forall s | s in ats :: from <= ats[s] <= to && s in past[ats[s]]
  }

  /** Every file was as long, and last written at the same time, at both looks. */
  ghost predicate Unchanged(past: seq<Files>, sources: seq<Source>, firsts: map<Source, nat>, seconds: map<Source, nat>) {
    forall s | s in sources ::
      && s in firsts && s in seconds && firsts[s] < |past| && seconds[s] < |past|
      && s in past[firsts[s]] && s in past[seconds[s]]
      && |past[firsts[s]][s].content| == |past[seconds[s]][s].content|
      && past[firsts[s]][s].mtime == past[seconds[s]][s].mtime
  }

  /** Stamps are equal exactly when sizes and times are. */
  lemma EqualStamps(past: seq<Files>, statted: seq<Files>, sources: seq<Source>, before: map<Source, Stamp>,
                    befores: map<Source, nat>, after: map<Source, Stamp>, afters: map<Source, nat>, from: nat, mid: nat)
    requires statted != [] && statted <= past
    requires before.Keys == after.Keys == Named(sources)
    requires StampedBetween(statted, before, befores, from, |statted| - 1)
    requires StampedBetween(past, after, afters, mid, |past| - 1)
    ensures Looked(past, sources, befores, from, |statted| - 1) && Looked(past, sources, afters, mid, |past| - 1)
    ensures before == after <==> Unchanged(past, sources, befores, afters)
  {
    forall s | s in befores
      ensures StampSeen(past, s, befores[s], before[s]) && befores[s] <= |statted| - 1
    {
      StampLasts(statted, past, s, befores[s], before[s]);
    }
    forall s | s in afters
      ensures StampSeen(past, s, afters[s], after[s])
    {
    }
    if before == after {
      forall s | s in sources
        ensures s in befores && s in afters && SizeAndTime(past[befores[s]][s], past[afters[s]][s])
      {
        assert s in Named(sources);
      }
    }
    if Unchanged(past, sources, befores, afters) {
      forall s | s in before
        ensures before[s] == after[s]
      {
        assert s in Named(sources);
      }
    }
  }

  /** What two rounds of stamps say about the copies between them. */
  lemma StampsTell(past: seq<Files>, statted: seq<Files>, done: seq<Files>,
                   before: map<Source, Stamp>, befores: map<Source, nat>,
                   after: map<Source, Stamp>, afters: map<Source, nat>, dest: map<Source, seq<Byte>>, from: nat)
    requires statted != [] && statted <= done <= past && from < |statted|
    requires StampedBetween(statted, before, befores, from, |statted| - 1)
    requires StampedBetween(past, after, afters, |done| - 1, |past| - 1)
    requires dest.Keys == before.Keys == after.Keys && AllCopied(done, dest, |statted| - 1, |done| - 1)
    ensures before == after && WritesAreFresh(past) ==> OneMoment(past, dest, |statted| - 1)
    ensures Quiet(past, from) ==> before == after
  {
    if before == after && WritesAreFresh(past) {
      SameStampsOneMoment(past, statted, done, before, befores, afters, dest, from);
    }
    if Quiet(past, from) {
      QuietStampsAgree(past, statted, before, befores, after, afters, from, |done| - 1);
    }
  }

  /**
   What a pass says of its copies, from the moment `from` on: it is stable exactly
   when every source was as long, and last written at the same time, at the first look
   and at the second; then, writes being fresh, the copies are of the one moment `at`
   between them.  An undisturbed pass is stable.
   */
  ghost predicate Told(past: seq<Files>, sources: seq<Source>, dest: map<Source, seq<Byte>>, stable: bool,
                       from: nat, at: nat, firsts: map<Source, nat>, seconds: map<Source, nat>) {
    && dest.Keys == Named(sources)
    && from <= at < |past| && Looked(past, sources, firsts, from, at) && Looked(past, sources, seconds, at, |past| - 1)
    && (stable <==> Unchanged(past, sources, firsts, seconds))
    && (stable && WritesAreFresh(past) ==> OneMoment(past, dest, at))
    && (Quiet(past, from) ==> stable)
  }

  lemma PassIsTold(past: seq<Files>, statted: seq<Files>, done: seq<Files>, sources: seq<Source>,
                   before: map<Source, Stamp>, befores: map<Source, nat>,
                   after: map<Source, Stamp>, afters: map<Source, nat>, dest: map<Source, seq<Byte>>, from: nat)
    requires statted != [] && statted <= done <= past && from < |statted|
    requires StampedBetween(statted, before, befores, from, |statted| - 1)
    requires StampedBetween(past, after, afters, |done| - 1, |past| - 1)
    requires dest.Keys == before.Keys == after.Keys == Named(sources) && AllCopied(done, dest, |statted| - 1, |done| - 1)
    ensures Told(past, sources, dest, before == after, from, |statted| - 1, befores, afters)
  {
    EqualStamps(past, statted, sources, before, befores, after, afters, from, |done| - 1);
    StampsTell(past, statted, done, before, befores, after, afters, dest, from);
  }

  /** The copies, then the second stamps; None when a file went away. */
  method CopyAndStatAgain(world: World, sources: seq<Source>, before: map<Source, Stamp>, ghost befores: map<Source, nat>,
                          ghost from: nat)
    returns (copied: Option<(map<Source, seq<Byte>>, bool)>, ghost afters: map<Source, nat>)
    requires world.Valid() && before.Keys == Named(sources)
    requires from < |world.past| && StampedBetween(world.past, before, befores, from, |world.past| - 1)
    modifies world
    ensures world.Valid() && old(world.past) <= world.past
    ensures copied.None? ==> Gone(world.past, sources, |old(world.past)| - 1)
    ensures copied.Some? ==>
              Told(world.past, sources, copied.value.0, copied.value.1, from, |old(world.past)| - 1, befores, afters)
  {
    ghost var statted := world.past;
    var dest := CopyAll(world, sources);
    if dest.None? {
      return None, map[];
    }
    ghost var done := world.past;
    var after;
    after, afters := StatAll(world, sources);
    if after.None? {
      GoneLater(world.past, world.past, sources, |done| - 1, |statted| - 1);
      return None, afters;
    }
    assert dest.value.Keys == Named(sources);
    PassIsTold(world.past, statted, done, sources, before, befores, after.value, afters, dest.value, from);
    copied := Some((dest.value, before == after.value));
  }

  /** One pass: None when a file went away under it. */
  method Attempt(world: World, sources: seq<Source>)
    returns (copied: Option<(map<Source, seq<Byte>>, bool)>, ghost at: nat,
             ghost firsts: map<Source, nat>, ghost seconds: map<Source, nat>)
    requires world.Valid()
    modifies world
    ensures world.Valid() && old(world.past) <= world.past
    ensures copied.None? ==> Gone(world.past, sources, |old(world.past)| - 1)
    ensures copied.Some? ==>
              Told(world.past, sources, copied.value.0, copied.value.1, |old(world.past)| - 1, at, firsts, seconds)
  {
    ghost var start := world.past;
    var before;
    before, firsts := StatAll(world, sources);
    seconds := map[];
    at := |world.past| - 1;
    if before.None? {
      return None, at, firsts, seconds;
    }
    copied, seconds := CopyAndStatAgain(world, sources, before.value, firsts, |start| - 1);
    if copied.None? {
      GoneLater(world.past, world.past, sources, at, |start| - 1);
    }
  }

  // --- the snapshot ------------------------------------------------------------------------

  datatype Outcome =
    | NoLevel                                                               // WorldError
    | NoRegions                                                             // WorldError
    | Vanished                                                              // a file went away: OSError
    | Snapped(stable: bool, attempts: int, dest: map<Source, seq<Byte>>)

  /** The region was there at every moment of the call. */
  ghost predicate Throughout(past: seq<Files>, from: nat, s: Source) {
    forall t | from <= t < |past| :: s in past[t]
  }

  /** level.dat and the wanted regions that exist, looked for one by one. */
  method Sources(world: World, area: Area) returns (sources: seq<Source>)
    requires world.Valid()
    modifies world
    ensures world.Valid() && old(world.past) <= world.past
    ensures LevelDat in sources
    ensures forall s | s in sources && s.RegionFile? ::
              s.region in area.Regions() && exists t :: |old(world.past)| - 1 <= t < |world.past| && s in world.past[t]
    ensures forall r | r in area.Regions() && Throughout(world.past, |old(world.past)| - 1, RegionFile(r)) ::
              RegionFile(r) in sources
  {
    sources := [LevelDat];
    var wanted := area.Regions();
    ghost var start := world.past;
    for i := 0 to |wanted|
      invariant world.Valid() && start <= world.past
      invariant LevelDat in sources
      invariant forall s | s in sources && s.RegionFile? ::
                  s.region in wanted && exists t :: |start| - 1 <= t < |world.past| && s in world.past[t]
      invariant forall k | 0 <= k < i && Throughout(world.past, |start| - 1, RegionFile(wanted[k])) ::
                  RegionFile(wanted[k]) in sources
    {
      ghost var earlier := world.past;
      var s := RegionFile(wanted[i]);
      var stamp;
      ghost var at;
      stamp, at := world.Stat(s);
      forall k | 0 <= k < i && Throughout(world.past, |start| - 1, RegionFile(wanted[k]))
        ensures RegionFile(wanted[k]) in sources
      {
        assert forall t | |start| - 1 <= t < |earlier| :: earlier[t] == world.past[t];
        assert Throughout(earlier, |start| - 1, RegionFile(wanted[k]));
      }
      forall x | x in sources && x.RegionFile?
        ensures exists t :: |start| - 1 <= t < |world.past| && x in world.past[t]
      {
        var t :| |start| - 1 <= t < |earlier| && x in earlier[t];
        assert world.past[t] == earlier[t];
      }
      if stamp.Some? {
        sources := sources + [s];
      }
    }
  }

  /** Files that were each there at some moment of a quiet time are there throughout. */
  lemma NoneGoneWhenQuiet(past: seq<Files>, sources: seq<Source>, from: nat)
    requires Quiet(past, from)
    requires forall s | s in sources :: exists t :: from <= t < |past| && s in past[t]
    ensures !Gone(past, sources, from)
  {
  }

  lemma SeenLater(past: seq<Files>, longer: seq<Files>, sources: seq<Source>, from: nat)
    requires past <= longer && Seen(past, sources, from)
    ensures Seen(longer, sources, from)
  {
    forall s | s in sources
      ensures exists t :: from <= t < |longer| && s in longer[t]
    {
      var t :| from <= t < |past| && s in past[t];
      assert longer[t] == past[t];
    }
  }

  /** Each of these was there at some moment. */
  ghost predicate Seen(past: seq<Files>, sources: seq<Source>, from: nat) {
    forall s | s in sources :: exists t :: from <= t < |past| && s in past[t]
  }

  /** What one pass told is still so when more has happened. */
  lemma EarlierTold(past: seq<Files>, sources: seq<Source>, dest: map<Source, seq<Byte>>, stable: bool,
                    start: nat, from: nat, at: nat, firsts: map<Source, nat>, seconds: map<Source, nat>)
    requires start <= from && Told(past, sources, dest, stable, from, at, firsts, seconds)
    ensures Told(past, sources, dest, stable, start, at, firsts, seconds)
  {
    assert Quiet(past, start) ==> Quiet(past, from);
  }

  /** Pass after pass, until one is stable, a file is gone, or the attempts are used up. */
  method Tries(world: World, sources: seq<Source>, attempts: int, ghost from: nat)
    returns (dest: Option<map<Source, seq<Byte>>>, stable: bool, tries: int,
             ghost at: nat, ghost firsts: map<Source, nat>, ghost seconds: map<Source, nat>)
    requires world.Valid() && from < |world.past| && Seen(world.past, sources, from)
    modifies world
    ensures world.Valid() && old(world.past) <= world.past
    ensures dest.None? ==> Gone(world.past, sources, from) && !Quiet(world.past, from)
    ensures dest.Some? ==>
              && 0 <= tries && (tries <= attempts || tries == 0) && (stable || tries >= attempts) && (stable ==> tries > 0)
              && (tries == 0 <==> attempts <= 0)
    ensures dest.Some? && tries > 0 ==>
              && Told(world.past, sources, dest.value, stable, from, at, firsts, seconds)
              && (Quiet(world.past, from) ==> tries == 1)
  {
    ghost var start := world.past;
    stable, tries, at, firsts, seconds := false, 0, from, map[], map[];
    var copies: map<Source, seq<Byte>> := map[];
    while tries < attempts && !stable
      invariant world.Valid() && start <= world.past
      invariant 0 <= tries && (tries <= attempts || tries == 0) && (stable ==> tries > 0)
      invariant tries > 0 ==> Told(world.past, sources, copies, stable, from, at, firsts, seconds)
      invariant tries > 0 && Quiet(world.past, from) ==> tries == 1
      decreases attempts - tries
    {
      tries := tries + 1;
      ghost var tried := world.past;
      assert tries > 1 ==> !Quiet(tried, from);
      var copied;
      copied, at, firsts, seconds := Attempt(world, sources);
      NotQuietLater(tried, world.past, from);
      if copied.None? {
        GoneLater(world.past, world.past, sources, |tried| - 1, from);
        if Quiet(world.past, from) {
          SeenLater(start, world.past, sources, from);
          NoneGoneWhenQuiet(world.past, sources, from);
        }
        return None, false, tries, at, firsts, seconds;
      }
      EarlierTold(world.past, sources, copied.value.0, copied.value.1, from, |tried| - 1, at, firsts, seconds);
      copies, stable := copied.value.0, copied.value.1;
    }
    dest := Some(copies);
  }

  lemma NotQuietLater(past: seq<Files>, longer: seq<Files>, from: nat)
    requires past <= longer && from < |past|
    ensures Quiet(longer, from) ==> Quiet(past, from)
  {
    assert forall t | 0 <= t < |past| :: past[t] == longer[t];
  }

  /**
   `snapshot`.  Stable or out of attempts.  The last pass looked at every source
   twice (`firsts`, `seconds`), and it is stable exactly when size and time were the
   same both times; when it is, and writes are fresh, the destination is the world at
   one moment of the call, whatever the game wrote and however often it was tried.
   */
  method Snapshot(world: World, area: Area, hasRegions: bool, attempts: int)
    returns (r: Outcome, ghost at: nat, ghost sources: seq<Source>, ghost firsts: map<Source, nat>, ghost seconds: map<Source, nat>)
    requires world.Valid()
    modifies world
    ensures world.Valid() && old(world.past) <= world.past
    ensures r.NoLevel? ==> Missing(world.past, LevelDat, |old(world.past)| - 1)
    ensures r.NoRegions? ==> !hasRegions
    ensures r.Vanished? ==> exists s: Source :: (s.RegionFile? ==> s.region in area.Regions())
                                        && Missing(world.past, s, |old(world.past)| - 1)
    ensures r.Snapped? ==>
              && (r.attempts <= attempts || r.attempts == 0) && (r.stable || r.attempts >= attempts)
              && (r.stable ==> r.attempts > 0)
              && (r.attempts == 0 <==> attempts <= 0)
    ensures r.Snapped? && r.attempts > 0 ==>
              && LevelDat in r.dest
              && (forall s | s in r.dest && s.RegionFile? :: s.region in area.Regions())
              && (forall c | c in area.Regions() && Throughout(world.past, |old(world.past)| - 1, RegionFile(c)) ::
                    RegionFile(c) in r.dest)
    ensures r.Snapped? && r.attempts > 0 ==>
              Told(world.past, sources, r.dest, r.stable, |old(world.past)| - 1, at, firsts, seconds)
    ensures Quiet(world.past, |old(world.past)| - 1) && r.Snapped? && attempts > 0 ==> r.stable && r.attempts == 1
    ensures Quiet(world.past, |old(world.past)| - 1) ==> !r.Vanished?
  {
    ghost var start := world.past;
    sources, firsts, seconds := [], map[], map[];
    var level;
    level, at := world.Stat(LevelDat);
    if level.None? {
      return NoLevel, at, sources, firsts, seconds;
    }
    if !hasRegions {
      return NoRegions, at, sources, firsts, seconds;
    }
    ghost var found := world.past;
    var wanted := Sources(world, area);
    sources := wanted;
    ghost var listed := world.past;
    LevelSeen(found, listed, at, |start| - 1);
    assert Seen(listed, wanted, |start| - 1);
    forall c | c in area.Regions() && Throughout(listed, |start| - 1, RegionFile(c))
      ensures RegionFile(c) in wanted
    {
      assert Throughout(listed, |found| - 1, RegionFile(c));
    }
    var dest, stable, tries;
    dest, stable, tries, at, firsts, seconds := Tries(world, wanted, attempts, |start| - 1);
    if dest.None? {
      return Vanished, at, sources, firsts, seconds;
    }
    forall c | c in area.Regions() && Throughout(world.past, |start| - 1, RegionFile(c))
      ensures RegionFile(c) in wanted
    {
      ThroughoutEarlier(listed, world.past, |start| - 1, RegionFile(c));
    }
    r := Snapped(stable, tries, dest.value);
  }

  lemma LevelSeen(past: seq<Files>, longer: seq<Files>, at: nat, from: nat)
    requires past <= longer && from <= at < |past| && LevelDat in past[at]
    ensures exists t :: from <= t < |longer| && LevelDat in longer[t]
  {
    assert longer[at] == past[at];
  }

  lemma ThroughoutEarlier(past: seq<Files>, longer: seq<Files>, from: nat, s: Source)
    requires past <= longer && Throughout(longer, from, s)
    ensures Throughout(past, from, s)
  {
    assert forall t | 0 <= t < |past| :: past[t] == longer[t];
  }
}
