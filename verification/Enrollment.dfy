/**
 The on-disk store of enrolled speakers (internal/speaker/enrollment.go): the profiles held
 in memory, the profiles file, and one embedding file per profile, with file operations that
 may fail. An atomic write either replaces the file or leaves it, and so does a move.
 */
module Enrollment {
  import opened Wrappers
  import opened Utf8
  import opened GoStrings
  import opened Embeddings

  // ---------------------------------------------------------------- storage keys

  const DASH: byte := 45
  const DOT: byte := 46
  const UNKNOWN: bytes := [117, 110, 107, 110, 111, 119, 110]
  const SPEAKER: bytes := [115, 112, 101, 97, 107, 101, 114]
  const MAX_NAME := 64

  predicate Upper(b: byte) { 65 <= b <= 90 }

  predicate Alnum(b: byte) { 97 <= b <= 122 || Upper(b) || 48 <= b <= 57 }

  predicate NameByte(b: byte) { Alnum(b) || b == SPACE || b == DASH || b == 95 || b == DOT }

  /** strings.ToLower on the names that are accepted; any other name is refused in either case. */
  function Lower(s: bytes): (t: bytes)
    ensures |t| == |s|
  {
    seq(|s|, i requires 0 <= i < |s| => if Upper(s[i]) then s[i] + 32 else s[i])
  }

  function Dashed(s: bytes): (t: bytes)
    ensures |t| == |s|
  {
    seq(|s|, i requires 0 <= i < |s| => if s[i] == SPACE then DASH else s[i])
  }

  predicate Reserved(lower: bytes) { lower == UNKNOWN || SPEAKER + [DASH] <= lower }

  predicate Supported(s: bytes) { forall i :: 0 <= i < |s| ==> NameByte(s[i]) }

  /** profileSlug; every refusal is one error. */
  function ProfileSlug(name: bytes): Option<bytes>
  {
    var trimmed := TrimSpace(name);
    if trimmed == [] || |trimmed| > MAX_NAME then None
    else if Reserved(Lower(trimmed)) || !Supported(trimmed) then None
    else if trimmed[0] == DOT || trimmed[0] == DASH then None
    else Some(Dashed(Lower(trimmed)))
  }

  /** A key that is a plain file name: no separator, no leading dot, no capital, and not the label of nobody. */
  predicate PlainFileName(s: bytes)
  {
    && 1 <= |s| <= MAX_NAME && s[0] != DOT && s != UNKNOWN
    && forall i :: 0 <= i < |s| ==> (Alnum(s[i]) && !Upper(s[i])) || s[i] == DASH || s[i] == 95 || s[i] == DOT
  }

  /** Where a key has no dash, it is the lowered name. */
  lemma DashlessPart(l: bytes, k: nat)
    requires k <= |l| && DASH !in Dashed(l)[..k]
    ensures l[..k] == Dashed(l)[..k]
  {
    forall i | 0 <= i < k ensures l[..k][i] == Dashed(l)[..k][i] { assert Dashed(l)[..k][i] in Dashed(l)[..k]; }
  }

  lemma OnlyUnknown(l: bytes)
    ensures Dashed(l) == UNKNOWN ==> l == UNKNOWN
  {
    if Dashed(l) == UNKNOWN {
      assert Dashed(l)[..|l|] == UNKNOWN;
      DashlessPart(l, |l|);
      assert l[..|l|] == l;
    }
  }

  lemma SlugIsPlain(name: bytes)
    requires ProfileSlug(name).Some?
    ensures PlainFileName(ProfileSlug(name).value)
  {
    hide TrimSpace;
    var t := TrimSpace(name);
    var s := ProfileSlug(name).value;
    assert s == Dashed(Lower(t));
    OnlyUnknown(Lower(t));
  }

  /** A key can look like an anonymous label, "speaker-N", and does so exactly for names that say "speaker N". */
  lemma SlugLooksAnonymous(name: bytes)
    requires ProfileSlug(name).Some?
    ensures SPEAKER + [DASH] <= ProfileSlug(name).value <==> SPEAKER + [SPACE] <= Lower(TrimSpace(name))
  {
    hide TrimSpace, Supported, Lower;
    var l := Lower(TrimSpace(name));
    var s := ProfileSlug(name).value;
    assert s == Dashed(l);
    if SPEAKER + [DASH] <= s {
      assert s[..7] == SPEAKER;
      DashlessPart(l, 7);
      assert l[..8] == SPEAKER + [l[7]];
      assert l[7] != DASH;
    }
    if SPEAKER + [SPACE] <= l {
      assert forall i :: 0 <= i < 8 ==> l[i] == (SPEAKER + [SPACE])[i];
      assert s[..8] == SPEAKER + [DASH];
    }
  }

  // ---------------------------------------------------------------- the profiles file

  datatype Profile = Profile(
    name: bytes, modelRev: bytes, dim: nat, samples: nat, createdAt: int, updatedAt: int)

  type Profiles = map<bytes, Profile>

  /** OpenEnrollment: a bad stored name, or two on one key, refuses the whole file. */
  function Opened(listed: seq<Profile>): Option<Profiles>
  {
    if listed == [] then Some(map[])
    else
      var p := listed[|listed| - 1];
      match Opened(listed[..|listed| - 1])
      case None => None
      case Some(m) =>
        var slug := ProfileSlug(p.name);
        if slug.None? || slug.value in m then None else Some(m[slug.value := p])
  }

  /** Every profile sits under the key of its own name. */
  predicate Keyed(m: Profiles) { forall s :: s in m ==> ProfileSlug(m[s].name) == Some(s) }

  lemma OpenedGrows(listed: seq<Profile>, m: Profiles, p: Profile, slug: bytes)
    requires Opened(listed) == Some(m) && ProfileSlug(p.name) == Some(slug) && slug !in m
    ensures Opened(listed + [p]) == Some(m[slug := p])
  {
    hide ProfileSlug;
    assert (listed + [p])[..|listed|] == listed;
  }

  lemma {:induction false} OpenedKeyed(listed: seq<Profile>)
    ensures Opened(listed).Some? ==> Keyed(Opened(listed).value)
  {
    hide ProfileSlug;
    if listed != [] { OpenedKeyed(listed[..|listed| - 1]); }
  }

  /** A bad file stays bad however it goes on. */
  lemma {:induction false} BadStaysBad(listed: seq<Profile>, n: nat)
    requires n <= |listed| && Opened(listed[..n]).None?
    ensures Opened(listed).None?
    decreases |listed|
  {
    hide ProfileSlug;
    if n == |listed| {
      assert listed[..n] == listed;
    } else {
      assert listed[..|listed| - 1][..n] == listed[..n];
      BadStaysBad(listed[..|listed| - 1], n);
    }
  }

  // ---------------------------------------------------------------- operations on the store's three parts

  /** `onDisk` is what the profiles file would be opened as; `files` are the embedding files by key. */
  datatype State = State(profiles: Profiles, onDisk: Profiles, files: map<bytes, bytes>)

  /** Which file operations go through. */
  datatype Faults = Faults(write: bool, save: bool, undo: bool)

  datatype Outcome =
    | BadName | NotEnrolled | Collides | BadRows
    | WriteFailed | SaveFailed | RollbackFailed | Done(profile: Profile)

  function Move(files: map<bytes, bytes>, from: bytes, to: bytes): map<bytes, bytes>
    requires from in files
  {
    (files - {from})[to := files[from]]
  }

  function Rename(st: State, oldName: bytes, newName: bytes, now: int, f: Faults): (State, Outcome)
  {
    var from, to := ProfileSlug(oldName), ProfileSlug(newName);
    if from.None? || to.None? then (st, BadName)
    else if from.value !in st.profiles then (st, NotEnrolled)
    else if to != from && to.value in st.profiles then (st, Collides)
    else
      var updated := st.profiles[from.value].(name := newName, updatedAt := now);
      if to == from then
        if !f.save then (st, SaveFailed)
        else
          var profiles := st.profiles[from.value := updated];
          (st.(profiles := profiles, onDisk := profiles), Done(updated))
      else if !f.write || from.value !in st.files then (st, WriteFailed)
      else Moved(st, from.value, to.value, updated, f)
  }

  /** The rest of a rename, once the embedding file has moved. */
  function Moved(st: State, from: bytes, to: bytes, updated: Profile, f: Faults): (State, Outcome)
    requires from in st.profiles && from in st.files && from != to
  {
    var files := Move(st.files, from, to);
    if f.save then
      var profiles := (st.profiles - {from})[to := updated];
      (State(profiles, profiles, files), Done(updated))
    else if f.undo then (st.(files := Move(files, to, from)), SaveFailed)
    else (st.(files := files), RollbackFailed)
  }

  /** The rows Add accepts: at least one, none empty, all of one length. */
  predicate GoodRows(rows: seq<row>) { rows != [] && rows[0] != [] && Rectangular(rows, |rows[0]|) }

  function NewProfile(st: State, slug: bytes, name: bytes, modelRev: bytes, rows: seq<row>, now: int): Profile
    requires GoodRows(rows)
  {
    var created := if slug in st.profiles then st.profiles[slug].createdAt else now;
    Profile(name, modelRev, |rows[0]|, |rows|, created, now)
  }

  /** strings.EqualFold of the trimmed names. */
  predicate SameName(a: bytes, b: bytes) { Lower(TrimSpace(a)) == Lower(TrimSpace(b)) }

  function Add(st: State, name: bytes, modelRev: bytes, rows: seq<row>, now: int, f: Faults): (State, Outcome)
  {
    var slug := ProfileSlug(name);
    if slug.None? then (st, BadName)
    else if !GoodRows(rows) then (st, BadRows)
    else if slug.value in st.profiles && !SameName(st.profiles[slug.value].name, name) then (st, Collides)
    else if !f.write then (st, WriteFailed)
    else
      var p := NewProfile(st, slug.value, name, modelRev, rows, now);
      var profiles, files := st.profiles[slug.value := p], st.files[slug.value := Encode(rows)];
      if f.save then (State(profiles, profiles, files), Done(p))
      else (State(profiles, st.onDisk, files), SaveFailed)
  }

  /** A missing embedding file is no error. */
  function Remove(st: State, name: bytes, f: Faults): (State, Outcome)
  {
    var slug := ProfileSlug(name);
    if slug.None? then (st, BadName)
    else if slug.value !in st.profiles then (st, NotEnrolled)
    else if !f.write && slug.value in st.files then (st, WriteFailed)
    else
      var profiles, files := st.profiles - {slug.value}, st.files - {slug.value};
      if f.save then (State(profiles, profiles, files), Done(st.profiles[slug.value]))
      else (State(profiles, st.onDisk, files), SaveFailed)
  }

  // ---------------------------------------------------------------- agreement

  /** The embedding file holds rows of the recorded shape. */
  predicate Backed(p: Profile, file: bytes) { p.dim > 0 && p.samples > 0 && |file| == p.dim * p.samples * 4 }

  predicate Agree(st: State)
  {
    && st.onDisk == st.profiles && st.files.Keys == st.profiles.Keys && Keyed(st.profiles)
    && forall s :: s in st.profiles ==> s in st.files && Backed(st.profiles[s], st.files[s])
  }

  /** What the store holds of a name: its profile and its embedding file. */
  function Voice(st: State, name: bytes): Option<(Profile, bytes)>
  {
    var slug := ProfileSlug(name);
    if slug.Some? && slug.value in st.profiles && slug.value in st.files
    then Some((st.profiles[slug.value], st.files[slug.value])) else None
  }

  /** The named profile records the shape of these rows, and its file their bytes. */
  predicate Holds(st: State, name: bytes, rows: seq<row>)
    requires GoodRows(rows)
  {
    var v := Voice(st, name);
    v.Some? && v.value.0.dim == |rows[0]| && v.value.0.samples == |rows| && v.value.1 == Encode(rows)
  }

  /** The save went through, or nothing had changed. */
  predicate Settled(o: Outcome) { !o.RollbackFailed? && !o.SaveFailed? }

  /** A rename is all or nothing unless its rollback fails, and then the three parts disagree. */
  lemma RenameAllOrNothing(st: State, oldName: bytes, newName: bytes, now: int, f: Faults)
    requires Agree(st)
    ensures var (after, o) := Rename(st, oldName, newName, now, f);
      && (Agree(after) <==> !o.RollbackFailed?)
      && (!o.Done? && !o.RollbackFailed? ==> after == st)
      && (o.RollbackFailed? ==> after.profiles == st.profiles && after.onDisk == st.onDisk)
  {
    hide ProfileSlug, Backed;
    var from, to := ProfileSlug(oldName), ProfileSlug(newName);
    if from.Some? && to.Some? && from.value in st.profiles && to != from && to.value !in st.profiles {
      assert from.value in st.files && to.value !in st.files;
      MoveBack(st.files, from.value, to.value);
      if f.write { MovedAgrees(st, from.value, to.value, newName, now, f); }
    } else if from.Some? && to == from && from.value in st.profiles && f.save {
      SameKeyAgrees(st, from.value, newName, now);
    }
  }

  lemma MoveBack(files: map<bytes, bytes>, from: bytes, to: bytes)
    requires from in files && to !in files
    ensures Move(Move(files, from, to), to, from) == files
  {
  }

  lemma MovedAgrees(st: State, from: bytes, to: bytes, newName: bytes, now: int, f: Faults)
    requires Agree(st) && from in st.profiles && to !in st.profiles && ProfileSlug(newName) == Some(to)
    ensures var (after, o) := Moved(st, from, to, st.profiles[from].(name := newName, updatedAt := now), f);
      Agree(after) <==> !o.RollbackFailed?
  {
    hide ProfileSlug;
    assert from in st.files && to !in st.files && Backed(st.profiles[from], st.files[from]);
    if f.save {
      var after := Moved(st, from, to, st.profiles[from].(name := newName, updatedAt := now), f).0;
      assert after.files.Keys == st.files.Keys - {from} + {to} == after.profiles.Keys;
    } else if f.undo {
      MoveBack(st.files, from, to);
    } else {
      assert to in Move(st.files, from, to).Keys;
    }
  }

  lemma SameKeyAgrees(st: State, slug: bytes, newName: bytes, now: int)
    requires Agree(st) && slug in st.profiles && ProfileSlug(newName) == Some(slug)
    ensures var profiles := st.profiles[slug := st.profiles[slug].(name := newName, updatedAt := now)];
      Agree(st.(profiles := profiles, onDisk := profiles))
  {
    hide ProfileSlug;
  }

  /** A rename that goes through carries the voice over whole, frees the old name and touches no other. */
  lemma RenameCarriesVoice(st: State, oldName: bytes, newName: bytes, now: int, f: Faults)
    requires Agree(st) && Rename(st, oldName, newName, now, f).1.Done?
    ensures var after := Rename(st, oldName, newName, now, f).0;
      && Voice(st, oldName).Some?
      && Voice(after, newName)
           == Some((Voice(st, oldName).value.0.(name := newName, updatedAt := now), Voice(st, oldName).value.1))
      && (ProfileSlug(oldName) != ProfileSlug(newName) ==>
            Voice(after, oldName) == None && Voice(st, newName) == None)
  {
    hide ProfileSlug, Backed;
  }

  lemma RenameLeavesOthers(st: State, oldName: bytes, newName: bytes, now: int, f: Faults, other: bytes)
    requires Agree(st) && ProfileSlug(other) != ProfileSlug(oldName) && ProfileSlug(other) != ProfileSlug(newName)
    ensures Voice(Rename(st, oldName, newName, now, f).0, other) == Voice(st, other)
  {
    hide ProfileSlug, Backed;
  }

  /** Enrolling agrees exactly when the save went through, nothing was written, or the profile came out the same:
      a failed save is not rolled back. */
  lemma AddAgrees(st: State, name: bytes, modelRev: bytes, rows: seq<row>, now: int, f: Faults)
    requires Agree(st)
    ensures var (after, o) := Add(st, name, modelRev, rows, now, f);
      && (!o.Done? && !o.SaveFailed? ==> after == st)
      && (Agree(after) <==> Settled(o) || after.profiles == st.profiles)
  {
    hide ProfileSlug, Encode, TrimSpace, Lower;
    var slug := ProfileSlug(name);
    if slug.Some? && GoodRows(rows) && f.write {
      EncodedLength(rows, |rows[0]|);
      Shape(|rows|, |rows[0]|);
      var after := Add(st, name, modelRev, rows, now, f).0;
      if after.profiles == st.profiles {
        assert after.files.Keys == st.files.Keys;
      }
    }
  }

  lemma Shape(samples: nat, dim: nat)
    ensures samples * dim * 4 == dim * samples * 4
  {
  }

  /** Removing agrees exactly when the save went through or nothing was removed. */
  lemma RemoveAgrees(st: State, name: bytes, f: Faults)
    requires Agree(st)
    ensures var (after, o) := Remove(st, name, f);
      && (!o.Done? && !o.SaveFailed? ==> after == st)
      && (Agree(after) <==> Settled(o))
      && (o.Done? ==> Voice(after, name) == None)
  {
    hide ProfileSlug, Backed;
    var slug := ProfileSlug(name);
    if slug.Some? && slug.value in st.profiles {
      assert slug.value !in st.profiles - {slug.value};
    }
  }

  // What goes through, told from the inputs.

  /** A rename goes through exactly when the old name is enrolled, the new one is free or on the same key, the
      profiles file is written, and on another key the embedding file is there and moves. */
  lemma RenameDone(st: State, oldName: bytes, newName: bytes, now: int, f: Faults)
    ensures var from, to := ProfileSlug(oldName), ProfileSlug(newName);
      Rename(st, oldName, newName, now, f).1.Done? <==>
        (&& from.Some? && to.Some? && from.value in st.profiles && f.save
         && (from == to || (to.value !in st.profiles && f.write && from.value in st.files)))
  {
    hide ProfileSlug;
  }

  /** An enrolment goes through exactly when its rows are good, both files are written, and the key is free or holds
      the same name; what it records dates from the first enrolment. */
  lemma AddDone(st: State, name: bytes, modelRev: bytes, rows: seq<row>, now: int, f: Faults)
    ensures var slug, o := ProfileSlug(name), Add(st, name, modelRev, rows, now, f).1;
      && (o.Done? <==>
            (&& slug.Some? && GoodRows(rows) && f.write && f.save
             && (slug.value !in st.profiles || SameName(st.profiles[slug.value].name, name))))
      && (o.Done? ==>
            o.profile == Profile(name, modelRev, |rows[0]|, |rows|,
                                 if slug.value in st.profiles then st.profiles[slug.value].createdAt else now, now))
  {
    hide ProfileSlug, SameName, GoodRows, Encode;
  }

  /** A removal goes through exactly when the name is enrolled, the profiles file is written, and the embedding file
      is deleted or missing. */
  lemma RemoveDone(st: State, name: bytes, f: Faults)
    ensures var slug := ProfileSlug(name);
      Remove(st, name, f).1.Done? <==>
        (slug.Some? && slug.value in st.profiles && f.save && (f.write || slug.value !in st.files))
  {
    hide ProfileSlug;
  }

  lemma LowerKeeps(a: bytes, b: bytes, i: nat)
    requires Lower(a) == Lower(b) && i < |a|
    ensures |a| == |b| && (NameByte(a[i]) <==> NameByte(b[i]))
    ensures a[i] == DOT || a[i] == DASH ==> a[i] == b[i]
  {
    assert |Lower(a)| == |a| && |Lower(b)| == |b|;
    assert Lower(a)[i] == Lower(b)[i];
  }

  lemma SupportedFold(a: bytes, b: bytes)
    requires Lower(a) == Lower(b) && Supported(a)
    ensures Supported(b)
  {
    hide NameByte, Lower;
    forall i | 0 <= i < |b| ensures NameByte(b[i]) { LowerKeeps(b, a, i); }
  }

  /** Names that differ in case only are refused together or share one key. */
  lemma CaseSharesKey(a: bytes, b: bytes)
    requires SameName(a, b)
    ensures ProfileSlug(a) == ProfileSlug(b)
  {
    var s, t := TrimSpace(a), TrimSpace(b);
    assert |Lower(s)| == |s| && |Lower(t)| == |t|;
    if Supported(s) { SupportedFold(s, t); }
    if Supported(t) { SupportedFold(t, s); }
    if |s| > 0 {
      LowerKeeps(s, t, 0);
      LowerKeeps(t, s, 0);
    }
    hide TrimSpace, Lower, Supported, Reserved, Dashed;
  }

  // What the caller can see beforehand: that nothing will be written, or that it will be saved or undone.

  predicate RenameKeeps(st: State, oldName: bytes, newName: bytes, f: Faults)
  {
    var from, to := ProfileSlug(oldName), ProfileSlug(newName);
    f.save || f.undo || !f.write || from.None? || to.None? || from == to
    || from.value !in st.profiles || to.value in st.profiles
  }

  predicate AddKeeps(st: State, name: bytes, modelRev: bytes, rows: seq<row>, now: int, f: Faults)
  {
    var slug := ProfileSlug(name);
    f.save || !f.write || slug.None? || !GoodRows(rows)
    || (slug.value in st.profiles
        && (!SameName(st.profiles[slug.value].name, name)
            || NewProfile(st, slug.value, name, modelRev, rows, now) == st.profiles[slug.value]))
  }

  predicate RemoveKeeps(st: State, name: bytes, f: Faults)
  {
    var slug := ProfileSlug(name);
    f.save || !f.write || slug.None? || slug.value !in st.profiles
  }

  /** A rename leaves the three parts in agreement exactly under this condition on its inputs. */
  lemma RenameExact(st: State, oldName: bytes, newName: bytes, now: int, f: Faults)
    requires Agree(st)
    ensures Agree(Rename(st, oldName, newName, now, f).0) <==> RenameKeeps(st, oldName, newName, f)
  {
    RenameAllOrNothing(st, oldName, newName, now, f);
    assert forall s :: s in st.profiles ==> s in st.files;
    hide Agree, ProfileSlug;
  }

  lemma AddExact(st: State, name: bytes, modelRev: bytes, rows: seq<row>, now: int, f: Faults)
    requires Agree(st)
    ensures Agree(Add(st, name, modelRev, rows, now, f).0) <==> AddKeeps(st, name, modelRev, rows, now, f)
  {
    AddAgrees(st, name, modelRev, rows, now, f);
    hide Agree, ProfileSlug, SameName, GoodRows, Encode, NewProfile;
    var slug := ProfileSlug(name);
    if slug.Some? && GoodRows(rows) {
      UpdateChanges(st.profiles, slug.value, NewProfile(st, slug.value, name, modelRev, rows, now));
    }
  }

  lemma UpdateChanges<K, V>(m: map<K, V>, k: K, v: V)
    ensures m[k := v] == m <==> k in m && m[k] == v
  {
  }

  lemma RemoveExact(st: State, name: bytes, f: Faults)
    requires Agree(st)
    ensures Agree(Remove(st, name, f).0) <==> RemoveKeeps(st, name, f)
  {
    RemoveAgrees(st, name, f);
    assert forall s :: s in st.profiles ==> s in st.files;
    hide Agree, ProfileSlug;
  }

  /** Two names that share a key but differ otherwise never overwrite one another. */
  lemma AddKeepsOthers(st: State, name: bytes, modelRev: bytes, rows: seq<row>, now: int, f: Faults, other: bytes)
    requires Agree(st) && Voice(st, other).Some? && !SameName(Voice(st, other).value.0.name, name)
    ensures Voice(Add(st, name, modelRev, rows, now, f).0, other) == Voice(st, other)
  {
    hide ProfileSlug, Backed, Encode, SameName, GoodRows;
  }

  /** What was enrolled is read back under any name it is later given. */
  lemma EnrolledIsHeld(st: State, name: bytes, modelRev: bytes, rows: seq<row>, now: int, f: Faults,
                       newName: bytes, later: int, g: Faults)
    requires Agree(st) && Add(st, name, modelRev, rows, now, f).1.Done?
    ensures var added := Add(st, name, modelRev, rows, now, f).0;
      && GoodRows(rows) && Holds(added, name, rows)
      && (Rename(added, name, newName, later, g).1.Done? ==>
            Holds(Rename(added, name, newName, later, g).0, newName, rows))
  {
    hide ProfileSlug, Encode, SameName, Agree, Rename;
    var added := Add(st, name, modelRev, rows, now, f).0;
    AddAgrees(st, name, modelRev, rows, now, f);
    if Rename(added, name, newName, later, g).1.Done? { RenameCarriesVoice(added, name, newName, later, g); }
  }

  // ---------------------------------------------------------------- histories

  datatype Op =
    | AddOp(name: bytes, modelRev: bytes, rows: seq<row>, now: int, f: Faults)
    | RemoveOp(name: bytes, f: Faults)
    | RenameOp(oldName: bytes, newName: bytes, now: int, f: Faults)

  function Do(st: State, op: Op): (State, Outcome)
  {
    match op
    case AddOp(name, rev, rows, now, f) => Add(st, name, rev, rows, now, f)
    case RemoveOp(name, f) => Remove(st, name, f)
    case RenameOp(oldName, newName, now, f) => Rename(st, oldName, newName, now, f)
  }

  function Run(st: State, ops: seq<Op>): State
  {
    if ops == [] then st else Do(Run(st, ops[..|ops| - 1]), ops[|ops| - 1]).0
  }

  predicate Keeps(st: State, op: Op)
  {
    match op
    case AddOp(name, rev, rows, now, f) => AddKeeps(st, name, rev, rows, now, f)
    case RemoveOp(name, f) => RemoveKeeps(st, name, f)
    case RenameOp(oldName, newName, now, f) => RenameKeeps(st, oldName, newName, f)
  }

  /** Every operation meets its condition when its turn comes. */
  predicate AllKeep(st: State, ops: seq<Op>)
  {
    ops == [] || (AllKeep(st, ops[..|ops| - 1]) && Keeps(Run(st, ops[..|ops| - 1]), ops[|ops| - 1]))
  }

  /** Over a run the parts agree after every operation if and only if each one meets its condition. */
  lemma {:induction false} HistoryAgrees(st: State, ops: seq<Op>)
    requires Agree(st)
    ensures (forall k :: 0 <= k <= |ops| ==> Agree(Run(st, ops[..k]))) <==> AllKeep(st, ops)
  {
    hide Agree, Add, Remove, Rename, AddKeeps, RemoveKeeps, RenameKeeps;
    var n := |ops|;
    assert ops[..n] == ops;
    if ops != [] {
      var init := ops[..n - 1];
      HistoryAgrees(st, init);
      assert forall k :: 0 <= k < n ==> ops[..k] == init[..k];
      if Agree(Run(st, init)) { DoExact(Run(st, init), ops[n - 1]); }
      assert init == ops[..n - 1];
    }
  }

  lemma DoExact(st: State, op: Op)
    requires Agree(st)
    ensures Agree(Do(st, op).0) <==> Keeps(st, op)
  {
    hide Agree, Add, Remove, Rename, AddKeeps, RemoveKeeps, RenameKeeps;
    match op
    case AddOp(name, rev, rows, now, f) => AddExact(st, name, rev, rows, now, f);
    case RemoveOp(name, f) => RemoveExact(st, name, f);
    case RenameOp(oldName, newName, now, f) => RenameExact(st, oldName, newName, now, f);
  }

  // ---------------------------------------------------------------- the store

  class Store {
    var profiles: Profiles
    var listed: seq<Profile>
    var files: map<bytes, bytes>

    ghost predicate Valid()
      reads this
    {
      Keyed(profiles) && Opened(listed).Some?
    }

    ghost function View(): State
      requires Valid()
      reads this
    {
      State(profiles, Opened(listed).value, files)
    }

    constructor ()
      ensures Valid() && View() == State(map[], map[], map[])
    {
      profiles, listed, files := map[], [], map[];
    }

    /** OpenEnrollment on an existing profiles file; nothing is loaded when it is refused. */
    method Open(stored: seq<Profile>) returns (ok: bool)
      modifies this`profiles, this`listed
      ensures ok <==> Opened(stored).Some?
      ensures ok ==> Valid() && listed == stored && profiles == Opened(stored).value
    {
      hide ProfileSlug;
      var loaded: Profiles := map[];
      for i := 0 to |stored|
        invariant Opened(stored[..i]) == Some(loaded)
      {
        var slug := ProfileSlug(stored[i].name);
        assert stored[..i + 1][..i] == stored[..i];
        if slug.None? || slug.value in loaded {
          BadStaysBad(stored, i + 1);
          return false;
        }
        loaded := loaded[slug.value := stored[i]];
      }
      assert stored[..|stored|] == stored;
      OpenedKeyed(stored);
      profiles, listed := loaded, stored;
      return true;
    }

    /** saveLocked: what it lists is opened again as just the profiles it was given. */
    method SaveLocked(ok: bool)
      requires Keyed(profiles)
      modifies this`listed
      ensures if ok then Opened(listed) == Some(profiles) else listed == old(listed)
    {
      hide ProfileSlug;
      if !ok { return; }
      var list: seq<Profile> := [];
      var pending := profiles.Keys;
      ghost var done: Profiles := map[];
      while pending != {}
        invariant pending <= profiles.Keys && done.Keys == profiles.Keys - pending
        invariant forall s :: s in done ==> done[s] == profiles[s]
        invariant Opened(list) == Some(done)
        decreases |pending|
      {
        var s :| s in pending;
        OpenedGrows(list, done, profiles[s], s);
        list := list + [profiles[s]];
        done := done[s := profiles[s]];
        pending := pending - {s};
      }
      assert done == profiles;
      listed := list;
    }

    /** os.Rename of an embedding file. */
    method MoveFile(from: bytes, to: bytes, ok: bool) returns (moved: bool)
      modifies this`files
      ensures moved <==> ok && from in old(files)
      ensures files == if moved then Move(old(files), from, to) else old(files)
    {
      moved := ok && from in files;
      if moved { files := (files - {from})[to := files[from]]; }
    }

    method RenameProfile(oldName: bytes, newName: bytes, now: int, f: Faults) returns (outcome: Outcome)
      requires Valid()
      modifies this
      ensures Valid()
      ensures (View(), outcome) == Rename(old(View()), oldName, newName, now, f)
    {
      hide ProfileSlug, Opened;
      var from, to := ProfileSlug(oldName), ProfileSlug(newName);
      if from.None? || to.None? { return BadName; }
      var oldSlug, newSlug := from.value, to.value;
      if oldSlug !in profiles { return NotEnrolled; }
      var prev := profiles[oldSlug];
      if newSlug != oldSlug {
        if newSlug in profiles { return Collides; }
      }
      var updated := prev.(name := newName, updatedAt := now);
      if newSlug == oldSlug {
        profiles := profiles[oldSlug := updated];
        SaveLocked(f.save);
        if !f.save {
          profiles := profiles[oldSlug := prev];
          assert profiles == old(profiles);
          return SaveFailed;
        }
        return Done(updated);
      }
      var moved := MoveFile(oldSlug, newSlug, f.write);
      if !moved { return WriteFailed; }
      outcome := FinishRename(oldSlug, newSlug, updated, f, old(View()));
    }

    /** The part of a rename after the move. */
    method FinishRename(oldSlug: bytes, newSlug: bytes, updated: Profile, f: Faults, ghost before: State)
      returns (outcome: Outcome)
      requires Valid() && oldSlug != newSlug && ProfileSlug(updated.name) == Some(newSlug)
      requires oldSlug in profiles && newSlug !in profiles && oldSlug in before.files
      requires View() == before.(files := Move(before.files, oldSlug, newSlug))
      modifies this
      ensures Valid()
      ensures (View(), outcome) == Moved(before, oldSlug, newSlug, updated, f)
    {
      hide ProfileSlug, Opened;
      var prev := profiles[oldSlug];
      profiles := profiles - {oldSlug};
      profiles := profiles[newSlug := updated];
      SaveLocked(f.save);
      if !f.save {
        profiles := profiles - {newSlug};
        profiles := profiles[oldSlug := prev];
        assert profiles == before.profiles;
        var back := MoveFile(newSlug, oldSlug, f.undo);
        return if back then SaveFailed else RollbackFailed;
      }
      return Done(updated);
    }

    method AddProfile(name: bytes, modelRev: bytes, rows: seq<row>, now: int, f: Faults) returns (outcome: Outcome)
      requires Valid()
      modifies this
      ensures Valid()
      ensures (View(), outcome) == Add(old(View()), name, modelRev, rows, now, f)
    {
      hide ProfileSlug, Opened, Encode, SameName;
      var slug := ProfileSlug(name);
      if slug.None? { return BadName; }
      if |rows| == 0 { return BadRows; }
      var dim := |rows[0]|;
      if dim == 0 { return BadRows; }
      for i := 0 to |rows|
        invariant Rectangular(rows[..i], dim)
      {
        if |rows[i]| != dim { return BadRows; }
      }
      assert rows[..|rows|] == rows;
      var profile := Profile(name, modelRev, dim, |rows|, now, now);
      if slug.value in profiles {
        var prev := profiles[slug.value];
        if !SameName(prev.name, name) { return Collides; }
        profile := profile.(createdAt := prev.createdAt);
      }
      if !f.write { return WriteFailed; }
      var buf := WriteEmbeddings(rows);
      files := files[slug.value := buf];
      profiles := profiles[slug.value := profile];
      SaveLocked(f.save);
      return if f.save then Done(profile) else SaveFailed;
    }

    method RemoveProfile(name: bytes, f: Faults) returns (outcome: Outcome)
      requires Valid()
      modifies this
      ensures Valid()
      ensures (View(), outcome) == Remove(old(View()), name, f)
    {
      hide ProfileSlug, Opened;
      var slug := ProfileSlug(name);
      if slug.None? { return BadName; }
      if slug.value !in profiles { return NotEnrolled; }
      if slug.value in files && !f.write { return WriteFailed; }
      files := files - {slug.value};
      var gone := profiles[slug.value];
      profiles := profiles - {slug.value};
      SaveLocked(f.save);
      return if f.save then Done(gone) else SaveFailed;
    }

    /** Embeddings: the rows of the named profile, when its file has the recorded shape. */
    method Rows(name: bytes) returns (r: Option<seq<row>>)
      requires Valid()
      ensures r.Some? ==> Voice(View(), name).Some? && Encode(r.value) == Voice(View(), name).value.1
      ensures forall rows :: GoodRows(rows) && Holds(View(), name, rows) ==> r == Some(rows)
    {
      hide ProfileSlug, Encode;
      var slug := ProfileSlug(name);
      if slug.None? || slug.value !in profiles || slug.value !in files { return None; }
      r := ReadEmbeddings(files[slug.value], profiles[slug.value].dim, profiles[slug.value].samples);
    }
  }
}
