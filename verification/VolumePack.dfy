/** Numbering exported files and spreading them over volume directories (eml_pack.rs). */
module VolumePack {
  import opened Common
  import opened Filename

  // ---- names ----

  predicate PrefixChar(c: char) {
    'a' <= c <= 'z' || 'A' <= c <= 'Z' || '0' <= c <= '9' || c == '_' || c == '-'
  }

  /** A single safe path component. */
  predicate PrefixAccepted(prefix: string) {
    prefix != "" && forall k | 0 <= k < |prefix| :: PrefixChar(prefix[k])
  }

  function VolumeName(volume: nat, prefix: string): string {
    prefix + Padded(volume, 3)
  }

  /** The 1-based volume of a 0-based export index. */
  function VolumeForIndex(index0: nat, filesPerVolume: nat): nat {
    index0 / (if filesPerVolume < 1 then 1 else filesPerVolume) + 1
  }

  /** A relative path of the file with a number, in a volume. */
  ghost predicate PathFor(path: string, prefix: string, index: nat, volume: nat) {
    exists rest: string {:trigger "_" + rest} :: path == VolumeName(volume, prefix) + "/" + (Padded(index, 6) + ("_" + rest))
  }

  // ---- numbers are read back from names ----

  function Value(s: string): nat
    requires forall k | 0 <= k < |s| :: '0' <= s[k] <= '9'
  {
    if s == "" then 0 else Value(s[..|s| - 1]) * 10 + (s[|s| - 1] - '0') as nat
  }

  predicate Digits(s: string) {
    forall k | 0 <= k < |s| :: '0' <= s[k] <= '9'
  }

  lemma {:induction false} DecimalValue(n: nat)
    ensures Digits(Decimal(n)) && Value(Decimal(n)) == n
  {
    if n < 10 {
      assert [Digit(n)][..0] == "";
    } else {
      DecimalValue(n / 10);
      assert Decimal(n)[..|Decimal(n)| - 1] == Decimal(n / 10);
    }
  }

  lemma {:induction false} ZerosValue(z: nat, s: string)
    requires Digits(s)
    ensures Digits(Zeros(z) + s) && Value(Zeros(z) + s) == Value(s)
  {
    if s != "" {
      ZerosValue(z, s[..|s| - 1]);
      assert (Zeros(z) + s)[..|Zeros(z) + s| - 1] == Zeros(z) + s[..|s| - 1];
    } else if z > 0 {
      ZerosValue(z - 1, "");
      assert (Zeros(z) + "")[..z - 1] == Zeros(z - 1) + "";
    } else {
      assert Zeros(z) + "" == "";
    }
  }

  lemma PaddedValue(n: nat, width: nat)
    ensures Digits(Padded(n, width)) && Value(Padded(n, width)) == n
  {
    DecimalValue(n);
    if |Decimal(n)| < width {
      ZerosValue(width - |Decimal(n)|, Decimal(n));
    } else {
      assert "" + Decimal(n) == Decimal(n);
    }
  }

  /** The digits of n, at least as many as the width, and no zero in front that the width does not ask for. */
  predicate Shows(s: string, n: nat, width: nat) {
    Digits(s) && Value(s) == n && |s| >= width && |s| > 0 && (|s| > width && |s| > 1 ==> s[0] != '0')
  }

  lemma {:induction false} DecimalShows(n: nat)
    ensures Shows(Decimal(n), n, 0)
  {
    DecimalValue(n);
    if n >= 10 {
      DecimalShows(n / 10);
      assert |Decimal(n / 10)| == 1 ==> Decimal(n / 10)[..0] == "";
    }
  }

  lemma PaddedShows(n: nat, width: nat)
    ensures Shows(Padded(n, width), n, width)
  {
    DecimalShows(n);
    PaddedValue(n, width);
    assert "" + Decimal(n) == Decimal(n);
  }

  /** What follows the subject in a file name: nothing, or a hyphen and the number of the try. */
  ghost predicate ShowsTry(suffix: string, collision: Option<nat>) {
    if collision.None? then suffix == ""
    else suffix != "" && suffix[0] == '-' && Shows(suffix[1..], collision.value, 0)
  }

  /** The parts of a name: the counter in six digits or more, the id, some of the subject, the try. */
  ghost predicate NameReads(name: string, index: nat, id: string, subject: string, collision: Option<nat>) {
    exists counter: string, suffix: string ::
      && Shows(counter, index, 6) && ShowsTry(suffix, collision)
      && name == counter + "_" + id + (if subject == "" then "" else "_" + subject) + suffix + ".eml"
  }

  lemma NameIsRead(index: nat, id: string, subject: string, collision: Option<nat>)
    ensures NameReads(Name(index, id, subject, collision), index, id, subject, collision)
  {
    PaddedShows(index, 6);
    if collision.Some? {
      DecimalShows(collision.value);
      assert Suffix(collision)[1..] == Decimal(collision.value);
    }
    assert ShowsTry(Suffix(collision), collision);
  }

  /** A path as a reader of it sees it: the volume in three digits or more after the prefix, then the name. */
  ghost predicate PathReads(path: string, prefix: string, volume: nat, index: nat, id: string, subject: string, collision: Option<nat>) {
    exists digits: string, name: string ::
      Shows(digits, volume, 3) && NameReads(name, index, id, subject, collision) && path == prefix + digits + "/" + name
  }

  /** The path of the root, a separator, the volume's directory, a separator and the name: at most 250 units. */
  predicate WithinBudget(rootLen: nat, path: string) {
    rootLen + 1 + Units(path) <= 250
  }

  lemma SplitOnce(a: string, x: string, b: string, y: string, sep: char)
    requires sep !in a && sep !in b && a + ([sep] + x) == b + ([sep] + y)
    ensures a == b && x == y
  {
    var s := a + ([sep] + x);
    assert s[|a|] == sep && s[|b|] == sep;
    assert a == s[..|a|] == b && x == s[|a| + 1..] == y;
  }

  lemma VolumeNameHasNoSlash(volume: nat, prefix: string)
    requires PrefixAccepted(prefix)
    ensures '/' !in VolumeName(volume, prefix)
  {
    PaddedValue(volume, 3);
  }

  /** Files with different numbers have different paths, whatever their volumes. */
  lemma PathsDiffer(p: string, q: string, prefix: string, i: nat, j: nat, v: nat, w: nat)
    requires PrefixAccepted(prefix) && PathFor(p, prefix, i, v) && PathFor(q, prefix, j, w) && i != j
    ensures p != q
  {
    var r: string :| p == VolumeName(v, prefix) + "/" + (Padded(i, 6) + ("_" + r));
    var t: string :| q == VolumeName(w, prefix) + "/" + (Padded(j, 6) + ("_" + t));
    if p == q {
      VolumeNameHasNoSlash(v, prefix);
      VolumeNameHasNoSlash(w, prefix);
      Nested(VolumeName(v, prefix), Padded(i, 6) + ("_" + r));
      Nested(VolumeName(w, prefix), Padded(j, 6) + ("_" + t));
      SplitOnce(VolumeName(v, prefix), Padded(i, 6) + ("_" + r), VolumeName(w, prefix), Padded(j, 6) + ("_" + t), '/');
      PaddedValue(i, 6);
      PaddedValue(j, 6);
      SplitOnce(Padded(i, 6), r, Padded(j, 6), t, '_');
    }
  }

  lemma Nested(a: string, b: string)
    ensures a + "/" + b == a + (['/'] + b)
  {
  }

  // ---- counting ----

  lemma DivisionIs(n: nat, d: nat, q: nat, r: nat)
    requires n == q * d + r && r < d
    ensures n / d == q
  {
    var p := n / d;
    assert n == p * d + n % d;
    assert (p - q) * d == r - n % d && (q - p) * d == n % d - r;
    if p > q {
      OneMore(p - q, d);
    } else if p < q {
      OneMore(q - p, d);
    }
  }

  /** The volume of an index is the one whose range of indices holds it. */
  lemma VolumeHolds(index0: nat, filesPerVolume: nat, volume: nat)
    requires filesPerVolume >= 1
    ensures VolumeForIndex(index0, filesPerVolume) == volume <==>
            volume >= 1 && (volume - 1) * filesPerVolume <= index0 < volume * filesPerVolume
  {
    var q, r := index0 / filesPerVolume, index0 % filesPerVolume;
    assert index0 == q * filesPerVolume + r;
    if volume >= 1 {
      assert volume * filesPerVolume == (volume - 1) * filesPerVolume + filesPerVolume;
      if (volume - 1) * filesPerVolume <= index0 < volume * filesPerVolume {
        DivisionIs(index0, filesPerVolume, volume - 1, index0 - (volume - 1) * filesPerVolume);
      }
    }
  }

  lemma OneMore(k: nat, d: nat)
    requires k >= 1
    ensures k * d >= d
  {
    if k > 1 {
      OneMore(k - 1, d);
      assert k * d == (k - 1) * d + d;
    }
  }

  /** The numbers of paths given out, and where they went. */
  ghost predicate Placed(paths: seq<string>, prefix: string, filesPerVolume: nat) {
    forall k | 0 <= k < |paths| :: PathFor(paths[k], prefix, k + 1, VolumeForIndex(k, filesPerVolume))
  }

  /** The k-th path is in the k-th file's volume, and all paths are distinct. */
  lemma PlacedDistinct(paths: seq<string>, prefix: string, filesPerVolume: nat)
    requires PrefixAccepted(prefix) && Placed(paths, prefix, filesPerVolume)
    ensures forall i, j | 0 <= i < j < |paths| :: paths[i] != paths[j]
  {
    forall i, j | 0 <= i < j < |paths|
      ensures paths[i] != paths[j]
    {
      PathsDiffer(paths[i], paths[j], prefix, i + 1, j + 1, VolumeForIndex(i, filesPerVolume), VolumeForIndex(j, filesPerVolume));
    }
  }

  const MAX_TRIES: nat := 10_000

  /** The suffixes a file name is tried with: none, then 2 to 9999. */
  predicate Tried(collision: Option<nat>) {
    collision.None? || 2 <= collision.value < MAX_TRIES
  }

  predicate ComesBefore(c: Option<nat>, d: Option<nat>) {
    d.Some? && (c.None? || c.value < d.value)
  }

  class VolumePackWriter {
    const filesPerVolume: nat
    const prefix: string
    const rootLen: nat
    var nextIndex: nat
    var currentVolume: nat
    var filesInVolume: nat
    var volumesCreated: nat
    ghost var paths: seq<string>

    ghost predicate Valid()
      reads this
    {
      && filesPerVolume >= 1 && PrefixAccepted(prefix) && volumesCreated == currentVolume && nextIndex == |paths| + 1
      && (currentVolume == 0 ==> nextIndex == 1 && filesInVolume == 0)
      && (currentVolume > 0 ==> nextIndex - 1 == (currentVolume - 1) * filesPerVolume + filesInVolume && filesInVolume <= filesPerVolume)
      && Placed(paths, prefix, filesPerVolume)
    }

    constructor (rootLen: nat, n: nat, prefix: string)
      requires PrefixAccepted(prefix)
      ensures Valid() && paths == [] && currentVolume == 0 && this.prefix == prefix && this.rootLen == rootLen
      ensures filesPerVolume == if n < 1 then 1 else n
    {
      this.rootLen, this.prefix, filesPerVolume := rootLen, prefix, if n < 1 then 1 else n;
      nextIndex, currentVolume, filesInVolume, volumesCreated, paths := 1, 0, 0, 0, [];
    }

    /** Length of a volume's absolute path. */
    function DirLen(volume: nat): nat {
      rootLen + 1 + |VolumeName(volume, prefix)|
    }

    /** Opens the next volume when there is none or it is full. Counters have moved on even when its directory cannot be made. */
    method EnsureVolumeDir(canCreate: bool) returns (ok: bool)
      requires Valid()
      modifies `currentVolume, `filesInVolume, `volumesCreated
      ensures Valid() && currentVolume > 0 && filesInVolume < filesPerVolume
      ensures ok <==> canCreate || currentVolume == old(currentVolume)
      ensures currentVolume == if old(currentVolume) == 0 || old(filesInVolume) == filesPerVolume then old(currentVolume) + 1 else old(currentVolume)
    {
      ok := true;
      if currentVolume == 0 || filesInVolume >= filesPerVolume {
        assert currentVolume > 0 ==> currentVolume * filesPerVolume == (currentVolume - 1) * filesPerVolume + filesPerVolume;
        currentVolume := currentVolume + 1;
        filesInVolume := 0;
        volumesCreated := volumesCreated + 1;
        ok := canCreate;
      }
    }

    /** The name with this suffix is in use. */
    ghost predicate Taken(id: string, safe: string, existing: set<string>, collision: Option<nat>)
      reads this
    {
      exists k {:trigger safe[..k]} ::
        0 <= k <= |safe| && VolumeName(currentVolume, prefix) + "/" + Name(nextIndex, id, safe[..k], collision) in existing
    }

    /** No name can be had: one does not fit even without a subject, or all suffixes are in use. */
    ghost predicate NoName(id: string, safe: string, existing: set<string>)
      reads this
    {
      || (exists c: Option<nat> {:trigger Tried(c)} :: Tried(c) && !Fits(DirLen(currentVolume), Name(nextIndex, id, "", c)))
      || (forall c: Option<nat> {:trigger Tried(c)} {:trigger Taken(id, safe, existing, c)} :: Tried(c) ==> Taken(id, safe, existing, c))
    }

    ghost predicate TakenBefore(id: string, safe: string, existing: set<string>, d: Option<nat>)
      reads this
    {
      forall c: Option<nat> {:trigger Taken(id, safe, existing, c)} :: Tried(c) && ComesBefore(c, d) ==> Taken(id, safe, existing, c)
    }

    /** One try: the name with a given suffix, and whether it is free. */
    method TryName(id: string, safe: string, existing: set<string>, collision: Option<nat>)
      returns (name: Option<string>, free: bool, ghost k: nat)
      ensures name.None? ==> !Fits(DirLen(currentVolume), Name(nextIndex, id, "", collision))
      ensures name.Some? ==> k <= |safe| && name.value == Name(nextIndex, id, safe[..k], collision) && Fits(DirLen(currentVolume), name.value)
      ensures name.Some? ==> free == (VolumeName(currentVolume, prefix) + "/" + name.value !in existing)
      ensures name.Some? && !free ==> Taken(id, safe, existing, collision)
    {
      name := MakeEmlPackFilename(nextIndex, id, safe, DirLen(currentVolume), collision);
      free, k := false, 0;
      if name.Some? {
        k :| 0 <= k <= |safe| && name.value == Name(nextIndex, id, safe[..k], collision);
        free := VolumeName(currentVolume, prefix) + "/" + name.value !in existing;
      }
    }

    /** Looks for a name that is not taken, with suffixes -2, -3 and so on: the first that is free. */
    method FreeName(id: string, safe: string, existing: set<string>) returns (name: Option<string>, ghost k: nat, ghost collision: Option<nat>)
      ensures name.Some? ==> k <= |safe| && Tried(collision) && name.value == Name(nextIndex, id, safe[..k], collision)
      ensures name.Some? ==> Fits(DirLen(currentVolume), name.value) && VolumeName(currentVolume, prefix) + "/" + name.value !in existing
      ensures name.Some? ==> TakenBefore(id, safe, existing, collision)
      ensures name.None? ==> NoName(id, safe, existing)
    {
      var collisionN: Option<nat> := None;
      var n := 2;
      k, collision := 0, None;
      while true
        invariant n >= 2 && (n == 2 ==> collisionN.None?) && (n > 2 ==> collisionN == Some(n - 1)) && n <= MAX_TRIES
        invariant TakenBefore(id, safe, existing, collisionN)
        decreases MAX_TRIES + 1 - n
      {
        var free;
        name, free, k := TryName(id, safe, existing, collisionN);
        collision := collisionN;
        assert Tried(collisionN);
        if name.None? || free {
          return;
        }
        OneMoreTaken(id, safe, existing, collisionN, n);
        collisionN := Some(n);
        n := n + 1;
        if n > MAX_TRIES {
          name := None;
          return;
        }
      }
    }

    lemma OneMoreTaken(id: string, safe: string, existing: set<string>, c: Option<nat>, n: nat)
      requires TakenBefore(id, safe, existing, c) && Taken(id, safe, existing, c)
      requires if n == 2 then c.None? else n > 2 && c == Some(n - 1)
      ensures TakenBefore(id, safe, existing, Some(n))
      ensures n >= MAX_TRIES ==> NoName(id, safe, existing)
    {
      forall d: Option<nat> | Tried(d) && ComesBefore(d, Some(n))
        ensures Taken(id, safe, existing, d)
      {
        assert d == c || ComesBefore(d, c);
      }
    }

    /** The path of a file number in a volume, with the first k characters of the subject and a suffix that was tried. */
    ghost predicate Readable(path: string, id: string, safe: string, index: nat, volume: nat, k: nat, collision: Option<nat>) {
      k <= |safe| && (collision.None? || 2 <= collision.value <= 9999) && PathReads(path, prefix, volume, index, id, safe[..k], collision)
    }

    /** Counts a path as given out. */
    method Record(path: string)
      requires Valid() && currentVolume > 0 && filesInVolume < filesPerVolume && PathFor(path, prefix, nextIndex, currentVolume)
      modifies `nextIndex, `filesInVolume, `paths
      ensures Valid() && paths == old(paths) + [path] && VolumeForIndex(old(nextIndex) - 1, filesPerVolume) == currentVolume
    {
      assert currentVolume * filesPerVolume == (currentVolume - 1) * filesPerVolume + filesPerVolume;
      VolumeHolds(nextIndex - 1, filesPerVolume, currentVolume);
      nextIndex := nextIndex + 1;
      filesInVolume := filesInVolume + 1;
      paths := paths + [path];
    }

    /** The next path. A failure gives out no number; the volume may have moved on. */
    method NextEmlPath(id: string, safe: string, existing: set<string>, canCreate: bool) returns (rel: Option<string>)
      requires Valid()
      modifies this
      ensures Valid() && currentVolume > 0 && (currentVolume == old(currentVolume) || currentVolume == old(currentVolume) + 1)
      ensures rel.None? ==> paths == old(paths) && nextIndex == old(nextIndex)
      ensures rel.None? ==> (!canCreate && currentVolume != old(currentVolume)) || NoName(id, safe, existing)
      ensures rel.Some? ==> paths == old(paths) + [rel.value] && rel.value !in existing
      ensures rel.Some? ==> VolumeForIndex(old(nextIndex) - 1, filesPerVolume) == currentVolume
      ensures rel.Some? ==> WithinBudget(rootLen, rel.value)
      ensures rel.Some? ==> exists k: nat, collision: Option<nat> {:trigger Readable(rel.value, id, safe, old(nextIndex), currentVolume, k, collision)} ::
                Readable(rel.value, id, safe, old(nextIndex), currentVolume, k, collision)
    {
      var ok := EnsureVolumeDir(canCreate);
      if !ok {
        return None;
      }
      var name, k, collision := FreeName(id, safe, existing);
      if name.None? {
        return None;
      }
      rel := Some(VolumeName(currentVolume, prefix) + "/" + name.value);
      PathIsRead(prefix, currentVolume, name.value, nextIndex, id, safe[..k], collision);
      BudgetIs(rootLen, prefix, currentVolume, name.value);
      assert Readable(rel.value, id, safe, nextIndex, currentVolume, k, collision);
      NameStarts(nextIndex, id, safe[..k], collision);
      Record(rel.value);
    }
  }

  lemma PathIsRead(prefix: string, volume: nat, name: string, index: nat, id: string, subject: string, collision: Option<nat>)
    requires name == Name(index, id, subject, collision)
    ensures PathReads(VolumeName(volume, prefix) + "/" + name, prefix, volume, index, id, subject, collision)
  {
    PaddedShows(volume, 3);
    NameIsRead(index, id, subject, collision);
    assert VolumeName(volume, prefix) + "/" + name == prefix + Padded(volume, 3) + "/" + name;
  }

  lemma VolumeUnits(prefix: string, volume: nat)
    requires PrefixAccepted(prefix)
    ensures Units(VolumeName(volume, prefix)) == |VolumeName(volume, prefix)|
  {
    PaddedValue(volume, 3);
    AsciiUnits(VolumeName(volume, prefix));
  }

  lemma BudgetIs(rootLen: nat, prefix: string, volume: nat, name: string)
    requires PrefixAccepted(prefix) && Fits(rootLen + 1 + |VolumeName(volume, prefix)|, name)
    ensures WithinBudget(rootLen, VolumeName(volume, prefix) + "/" + name)
  {
    VolumeUnits(prefix, volume);
    UnitsConcat(VolumeName(volume, prefix), "/");
    UnitsConcat(VolumeName(volume, prefix) + "/", name);
    AsciiUnits("/");
  }

  lemma NameStarts(index: nat, id: string, subject: string, collision: Option<nat>)
    ensures exists rest: string {:trigger "_" + rest} :: Name(index, id, subject, collision) == Padded(index, 6) + ("_" + rest)
  {
    var middle := if subject == "" then "" else "_" + subject;
    NestName(Padded(index, 6), "_", id, middle, Suffix(collision), ".eml");
    var rest := id + (middle + Suffix(collision) + ".eml");
    assert Name(index, id, subject, collision) == Padded(index, 6) + ("_" + rest);
  }

  lemma NestName(a: string, b: string, c: string, d: string, e: string, f: string)
    ensures a + b + c + d + e + f == a + (b + (c + (d + e + f)))
  {
  }

  /** A writer, unless the prefix is not a single safe path component. */
  method NewVolumePackWriter(rootLen: nat, n: nat, prefix: string) returns (writer: VolumePackWriter?)
    ensures writer != null <==> PrefixAccepted(prefix)
    ensures writer != null ==> fresh(writer) && writer.Valid() && writer.paths == []
  {
    writer := null;
    if PrefixAccepted(prefix) {
      writer := new VolumePackWriter(rootLen, n, prefix);
    }
  }
}
