/** The byte stream a package tree is hashed as, the worklist that reads it, and the staged copy. */
module TreeDigest {
  import opened Results
  import opened Ids
  import opened Bytes

  const RECEIPT := ".codlet-source.json"
  const MAX_PACKAGE_FILES := 2048
  const MAX_NAME := 240
  const MAX_EXTRACTED_BYTES := 0x400_0000

  datatype Kind = Directory | File(bytes: seq<Byte>)

  /** A path below the package root, one component per level. */
  datatype Rel = Rel(parts: seq<string>)

  /** A directory tree: every entry but the root itself. */
  type Tree = map<Rel, Kind>

  const ROOT := Rel([])

  function Parent(p: Rel): Rel {
    if p.parts == [] then p else Rel(p.parts[..|p.parts| - 1])
  }

  predicate IsDirectory(t: Tree, p: Rel) {
    p == ROOT || (p in t && t[p].Directory?)
  }

  /** Entries hang below directories, and components are file names. */
  ghost predicate WellFormed(t: Tree) {
    forall p | p in t ::
      && p.parts != [] && IsDirectory(t, Parent(p))
      && forall i | 0 <= i < |p.parts| :: p.parts[i] != "" && '/' !in p.parts[i]
  }

  // ----- names

  function Join(parts: seq<string>): string {
    if |parts| == 0 then "" else if |parts| == 1 then parts[0]
    else parts[0] + "/" + Join(parts[1..])
  }

  function Slashes(s: string): string {
    if s == "" then "" else [if s[0] == '\\' then '/' else s[0]] + Slashes(s[1..])
  }

  /** The recorded name: joined components, backslashes turned into slashes. */
  function NameOf(p: Rel): string {
    Slashes(Join(p.parts))
  }

  function LowerAscii(s: string): string {
    if s == "" then "" else [if 'A' <= s[0] <= 'Z' then s[0] + ' ' else s[0]] + LowerAscii(s[1..])
  }

  /** Two names fold to the same one exactly if they differ in the case of ASCII letters at most. */
  lemma {:induction false} FoldedAlike(a: string, b: string)
    ensures LowerAscii(a) == LowerAscii(b) <==>
              |a| == |b| && forall i | 0 <= i < |a| ::
                a[i] == b[i] || ('A' <= a[i] <= 'Z' && b[i] as int == a[i] as int + 32) || ('A' <= b[i] <= 'Z' && a[i] as int == b[i] as int + 32)
    decreases |a|
  {
    if a != "" && b != "" {
      FoldedAlike(a[1..], b[1..]);
      assert forall i | 0 < i < |a| :: a[i] == a[1..][i - 1];
      assert forall i | 0 < i < |b| :: b[i] == b[1..][i - 1];
      assert LowerAscii(a)[1..] == LowerAscii(a[1..]) && LowerAscii(b)[1..] == LowerAscii(b[1..]);
      assert LowerAscii(a) == LowerAscii(b) <==> LowerAscii(a)[0] == LowerAscii(b)[0] && LowerAscii(a[1..]) == LowerAscii(b[1..]) by {
        assert LowerAscii(a) == [LowerAscii(a)[0]] + LowerAscii(a[1..]) && LowerAscii(b) == [LowerAscii(b)[0]] + LowerAscii(b[1..]);
      }
    }
  }

  /** The recorded form of a component differs from it in backslashes only. */
  lemma {:induction false} SlashesInPlace(s: string)
    ensures |Slashes(s)| == |s| && forall i | 0 <= i < |s| :: Slashes(s)[i] == if s[i] == '\\' then '/' else s[i]
  {
    if s != "" { SlashesInPlace(s[1..]); }
  }

  lemma LongerNamesHaveSlashes(parts: seq<string>)
    requires |parts| > 1
    ensures NameOf(Rel(parts)) != RECEIPT
  {
    var joined := Join(parts);
    SlashesInPlace(joined);
    assert joined[|parts[0]|] == '/';
    assert NameOf(Rel(parts))[|parts[0]|] == '/';
    assert forall i | 0 <= i < |RECEIPT| :: RECEIPT[i] != '/';
  }

  lemma OneNameIsItself(part: string)
    ensures NameOf(Rel([part])) == RECEIPT <==> part == RECEIPT
  {
    SlashesInPlace(part);
    assert Join([part]) == part;
    assert forall i | 0 <= i < |RECEIPT| :: RECEIPT[i] != '/' && RECEIPT[i] != '\\';
    if NameOf(Rel([part])) == RECEIPT {
      assert |part| == |RECEIPT| && forall i | 0 <= i < |part| :: part[i] == RECEIPT[i];
    }
  }

  /** Left out is the receipt at the root, with what would hang below it, and nothing else at any depth. */
  lemma {:induction false} ListedIsExact(p: Rel)
    ensures Listed(p) <==> p == ROOT || p.parts[0] != RECEIPT
    decreases |p.parts|
  {
    if |p.parts| == 1 {
      assert p.parts == [p.parts[0]] && Parent(p) == ROOT;
      OneNameIsItself(p.parts[0]);
    } else if |p.parts| > 1 {
      LongerNamesHaveSlashes(p.parts);
      ListedIsExact(Parent(p));
    }
  }

  predicate HasBackslash(p: Rel) {
    exists i | 0 <= i < |p.parts| :: '\\' in p.parts[i]
  }

  /** The entries the digest covers: everything but the root receipt and what would hang below it. */
  ghost predicate Listed(p: Rel)
    decreases |p.parts|
  {
    p == ROOT || (NameOf(p) != RECEIPT && Listed(Parent(p)))
  }

  ghost function Covered(t: Tree): set<Rel> {
    set p | p in t && Listed(p)
  }

  // ----- the worklist

  function Children(t: Tree, dir: Rel): set<Rel> {
    set p | p in t && p.parts != [] && Parent(p) == dir
  }

  /** The paths recorded are the covered entries of the directories in `seen`, each once, `rest` still to come. */
  ghost predicate Recorded(t: Tree, seen: set<Rel>, rest: set<Rel>, paths: seq<Rel>) {
    && (forall p | p in paths :: p in t && Listed(p) && Parent(p) in seen && p !in rest)
    && (forall p | p in t && Listed(p) && Parent(p) in seen && p !in rest :: p in paths)
    && (forall i, j | 0 <= i < j < |paths| :: paths[i] != paths[j])
  }

  ghost predicate Queued(t: Tree, seen: set<Rel>, pending: seq<Rel>) {
    && (forall d | d in pending :: d !in seen && IsDirectory(t, d) && Listed(d))
    && (forall i, j | 0 <= i < j < |pending| :: pending[i] != pending[j])
  }

  /** Every directory recorded was read or waits, and nothing else did. */
  ghost predicate Accounted(t: Tree, seen: set<Rel>, pending: seq<Rel>, paths: seq<Rel>) {
    && (forall d | IsDirectory(t, d) && Listed(d) && (d == ROOT || d in paths) :: d in seen || d in pending)
    && (forall d | d in seen :: d == ROOT || d in paths)
    && (forall d | d in pending :: d == ROOT || d in paths)
  }

  /** Directories popped so far, and those still waiting. */
  ghost predicate WorklistInvariant(t: Tree, done: set<Rel>, pending: seq<Rel>, paths: seq<Rel>) {
    Recorded(t, done, {}, paths) && Queued(t, done, pending) && Accounted(t, done, pending, paths)
  }

  lemma {:induction false} CoveredIsReached(t: Tree, done: set<Rel>, paths: seq<Rel>, p: Rel)
    requires WellFormed(t) && WorklistInvariant(t, done, [], paths)
    requires p in Covered(t)
    ensures p in paths
    decreases |p.parts|
  {
    var up := Parent(p);
    if up != ROOT { CoveredIsReached(t, done, paths, up); }
    assert IsDirectory(t, up) && Listed(up);
  }

  /** Reads every covered entry exactly once, whatever order directories list their entries in. */
  method Walk(t: Tree) returns (paths: seq<Rel>)
    requires WellFormed(t)
    ensures forall p :: p in paths <==> p in Covered(t)
    ensures forall i, j | 0 <= i < j < |paths| :: paths[i] != paths[j]
  {
    paths := [];
    var pending := [ROOT];
    ghost var done: set<Rel> := {};
    while pending != []
      invariant WorklistInvariant(t, done, pending, paths)
      decreases t.Keys + {ROOT} - done
    {
      var dir := pending[|pending| - 1];
      pending, paths := ReadDirectory(t, done, pending, paths);
      done := done + {dir};
    }
    forall p ensures p in paths <==> p in Covered(t) {
      if p in Covered(t) { CoveredIsReached(t, done, paths, p); }
    }
  }

  /** Part-way through one directory: the children in `rest` have not been seen. */
  ghost predicate Reading(t: Tree, done: set<Rel>, dir: Rel, rest: set<Rel>, pending: seq<Rel>, paths: seq<Rel>) {
    Recorded(t, done + {dir}, rest, paths) && Queued(t, done + {dir}, pending) && Accounted(t, done + {dir}, pending, paths)
  }

  lemma StartReading(t: Tree, done: set<Rel>, pending: seq<Rel>, paths: seq<Rel>)
    requires WellFormed(t) && pending != [] && WorklistInvariant(t, done, pending, paths)
    ensures var dir := pending[|pending| - 1];
            Reading(t, done, dir, Children(t, dir), pending[..|pending| - 1], paths)
  {
    var dir, rest := pending[|pending| - 1], pending[..|pending| - 1];
    assert dir in pending;
    StartRecorded(t, done, dir, paths);
    StartQueued(t, done, pending, dir, rest);
    StartAccounted(t, done, pending, dir, rest, paths);
  }

  lemma StartRecorded(t: Tree, done: set<Rel>, dir: Rel, paths: seq<Rel>)
    requires WellFormed(t) && Recorded(t, done, {}, paths) && dir !in done
    ensures Recorded(t, done + {dir}, Children(t, dir), paths)
  {}

  lemma StartQueued(t: Tree, done: set<Rel>, pending: seq<Rel>, dir: Rel, rest: seq<Rel>)
    requires Queued(t, done, pending) && pending == rest + [dir]
    ensures Queued(t, done + {dir}, rest)
  {
    assert forall d | d in rest :: d in pending;
    forall d | d in rest ensures d != dir {
      var i :| 0 <= i < |rest| && rest[i] == d;
      assert pending[i] != pending[|rest|];
    }
    assert forall i | 0 <= i < |rest| :: rest[i] == pending[i];
  }

  lemma StartAccounted(t: Tree, done: set<Rel>, pending: seq<Rel>, dir: Rel, rest: seq<Rel>, paths: seq<Rel>)
    requires Accounted(t, done, pending, paths) && pending == rest + [dir]
    ensures Accounted(t, done + {dir}, rest, paths)
  {
    assert forall d :: d in pending <==> d == dir || d in rest;
  }

  /** The root receipt is passed over. */
  lemma SkipOne(t: Tree, done: set<Rel>, dir: Rel, rest: set<Rel>, pending: seq<Rel>, paths: seq<Rel>, c: Rel)
    requires Reading(t, done, dir, rest, pending, paths) && !Listed(c)
    ensures Reading(t, done, dir, rest - {c}, pending, paths)
  {}

  lemma RecordOne(t: Tree, seen: set<Rel>, rest: set<Rel>, paths: seq<Rel>, c: Rel)
    requires Recorded(t, seen, rest, paths) && c in rest && c in t && Listed(c) && Parent(c) in seen
    ensures Recorded(t, seen, rest - {c}, paths + [c])
  {
    assert forall p :: p in paths + [c] <==> p in paths || p == c;
  }

  lemma QueueOne(t: Tree, seen: set<Rel>, pending: seq<Rel>, c: Rel)
    requires Queued(t, seen, pending) && c !in pending && c !in seen && IsDirectory(t, c) && Listed(c)
    ensures Queued(t, seen, pending + [c])
  {
    assert forall p :: p in pending + [c] <==> p in pending || p == c;
  }

  lemma ReadOne(t: Tree, done: set<Rel>, dir: Rel, rest: set<Rel>, pending: seq<Rel>, paths: seq<Rel>, c: Rel)
    requires Reading(t, done, dir, rest, pending, paths)
    requires c in rest && c in t && Listed(c) && Parent(c) == dir && c != ROOT
    ensures Reading(t, done, dir, rest - {c}, if t[c].Directory? then pending + [c] else pending, paths + [c])
  {
    var seen := done + {dir};
    assert c !in paths && c !in pending && c !in seen;
    RecordOne(t, seen, rest, paths, c);
    var waiting := if t[c].Directory? then pending + [c] else pending;
    if t[c].Directory? { QueueOne(t, seen, pending, c); }
    assert forall p :: p in paths + [c] <==> p in paths || p == c;
    assert forall p :: p in waiting <==> p in pending || (p == c && t[c].Directory?);
    assert Accounted(t, seen, waiting, paths + [c]);
  }

  lemma DoneReading(t: Tree, done: set<Rel>, dir: Rel, pending: seq<Rel>, paths: seq<Rel>)
    requires Reading(t, done, dir, {}, pending, paths)
    ensures WorklistInvariant(t, done + {dir}, pending, paths)
  {}

  /** One directory entry: passed over, recorded, or recorded and queued. */
  method ReadEntry(t: Tree, ghost done: set<Rel>, dir: Rel, ghost rest: set<Rel>, pending0: seq<Rel>, paths0: seq<Rel>, c: Rel)
    returns (pending: seq<Rel>, paths: seq<Rel>)
    requires Reading(t, done, dir, rest, pending0, paths0) && Listed(dir)
    requires c in rest && c in t && c != ROOT && Parent(c) == dir
    ensures Reading(t, done, dir, rest - {c}, pending, paths)
  {
    pending, paths := pending0, paths0;
    assert Listed(c) <==> NameOf(c) != RECEIPT;
    if NameOf(c) == RECEIPT {
      SkipOne(t, done, dir, rest, pending, paths, c);
    } else {
      ReadOne(t, done, dir, rest, pending, paths, c);
      paths := paths + [c];
      if t[c].Directory? { pending := pending + [c]; }
    }
  }

  method ReadDirectory(t: Tree, ghost done: set<Rel>, pending0: seq<Rel>, paths0: seq<Rel>)
    returns (pending: seq<Rel>, paths: seq<Rel>)
    requires WellFormed(t) && pending0 != [] && WorklistInvariant(t, done, pending0, paths0)
    ensures WorklistInvariant(t, done + {pending0[|pending0| - 1]}, pending, paths)
  {
    var dir := pending0[|pending0| - 1];
    StartReading(t, done, pending0, paths0);
    assert dir in pending0;
    pending, paths := pending0[..|pending0| - 1], paths0;
    var rest := Children(t, dir);
    while rest != {}
      invariant rest <= Children(t, dir) && Reading(t, done, dir, rest, pending, paths)
      decreases rest
    {
      var c :| c in rest;
      pending, paths := ReadEntry(t, done, dir, rest, pending, paths, c);
      rest := rest - {c};
    }
    DoneReading(t, done, dir, pending, paths);
  }

  /** The staged copy: every covered entry is recreated with its kind and bytes, and nothing else. */
  method ClonePackage(t: Tree) returns (copy: Tree)
    requires WellFormed(t)
    ensures copy == map p | p in Covered(t) :: t[p]
  {
    var paths := Walk(t);
    copy := map[];
    for i := 0 to |paths|
      invariant copy == map p | p in t && p in paths[..i] :: t[p]
    {
      assert paths[..i + 1] == paths[..i] + [paths[i]];
      assert paths[i] in paths;
      copy := copy[paths[i] := t[paths[i]]];
    }
    assert paths[..|paths|] == paths;
  }

  // ----- the stream

  datatype Item = Item(name: string, content: Option<seq<Byte>>)

  function ItemOf(t: Tree, p: Rel): Item
    requires p in t
  {
    Item(NameOf(p), match t[p] case Directory => None case File(bytes) => Some(bytes))
  }

  /** The items of a tree, as a set. */
  ghost function Items(t: Tree): set<Item> {
    set p | p in Covered(t) :: ItemOf(t, p)
  }

  /** The little-endian form of a length in `k` bytes. */
  function LittleEndian(n: nat, k: nat): (s: seq<Byte>)
    ensures |s| == k
    decreases k
  {
    if k == 0 then [] else [n % 256] + LittleEndian(n / 256, k - 1)
  }

  lemma {:induction false} LittleEndianInjective(m: nat, n: nat, k: nat)
    requires m < Power256(k) && n < Power256(k) && LittleEndian(m, k) == LittleEndian(n, k)
    ensures m == n
    decreases k
  {
    if k > 0 {
      var a, b := LittleEndian(m, k), LittleEndian(n, k);
      assert a[0] == b[0] && a[1..] == b[1..];
      assert a[1..] == LittleEndian(m / 256, k - 1) && b[1..] == LittleEndian(n / 256, k - 1);
      LittleEndianInjective(m / 256, n / 256, k - 1);
    }
  }

  /** A length is written least significant byte first. */
  lemma {:induction false} LengthsReadBack(n: nat, k: nat)
    requires n < Power256(k)
    ensures ValueOf(LittleEndian(n, k)) == n
    decreases k
  {
    if k > 0 {
      LengthsReadBack(n / 256, k - 1);
      assert LittleEndian(n, k)[1..] == LittleEndian(n / 256, k - 1);
    }
  }

  predicate Ascii(s: string) {
    forall i | 0 <= i < |s| :: s[i] < 128 as char
  }

  function TextBytes(s: string): (r: seq<Byte>)
    requires Ascii(s)
    ensures |r| == |s| && forall i | 0 <= i < |s| :: r[i] == s[i] as int
  {
    seq(|s|, i requires 0 <= i < |s| => s[i] as int)
  }

  /** Lengths fit in `w` bytes and names are ASCII, as the checks on names and sizes enforce for eight. */
  predicate Encodable(x: Item, w: nat) {
    && Ascii(x.name) && |x.name| < Power256(w)
    && (x.content.Some? ==> |x.content.value| < Power256(w))
  }

  /** A length in `w` bytes, then the bytes. */
  function Field(bytes: seq<Byte>, w: nat): seq<Byte> {
    LittleEndian(|bytes|, w) + bytes
  }

  function Tag(x: Item): Byte {
    if x.content.Some? then 1 else 0
  }

  function Body(x: Item, w: nat): seq<Byte> {
    if x.content.Some? then Field(x.content.value, w) else []
  }

  function EncodeItem(x: Item, w: nat): seq<Byte>
    requires Ascii(x.name)
  {
    [Tag(x)] + Field(TextBytes(x.name), w) + Body(x, w)
  }

  ghost predicate AllEncodable(xs: seq<Item>, w: nat) {
    forall i | 0 <= i < |xs| :: Encodable(xs[i], w)
  }

  ghost function Encode(xs: seq<Item>, w: nat): seq<Byte>
    requires AllEncodable(xs, w)
  {
    if xs == [] then [] else EncodeItem(xs[0], w) + Encode(xs[1..], w)
  }

  lemma SplitAt(a: seq<Byte>, b: seq<Byte>, c: seq<Byte>, d: seq<Byte>)
    requires a + b == c + d && |a| == |c|
    ensures a == c && b == d
  {
    assert (a + b)[..|a|] == a && (c + d)[..|c|] == c;
    assert (a + b)[|a|..] == b && (c + d)[|c|..] == d;
  }

  lemma TextBytesInjective(s: string, t: string)
    requires Ascii(s) && Ascii(t) && TextBytes(s) == TextBytes(t)
    ensures s == t
  {
    assert |s| == |t|;
    forall i | 0 <= i < |s| ensures s[i] == t[i] {
      assert TextBytes(s)[i] == TextBytes(t)[i];
    }
  }

  /** A length-prefixed field can be read back whatever follows it. */
  lemma FieldSplits(m: seq<Byte>, a: seq<Byte>, n: seq<Byte>, b: seq<Byte>, w: nat)
    requires |m| < Power256(w) && |n| < Power256(w)
    requires Field(m, w) + a == Field(n, w) + b
    ensures m == n && a == b
  {
    var x, y := LittleEndian(|m|, w), LittleEndian(|n|, w);
    assert Field(m, w) + a == x + (m + a) && Field(n, w) + b == y + (n + b);
    SplitAt(x, m + a, y, n + b);
    LittleEndianInjective(|m|, |n|, w);
    SplitAt(m, a, n, b);
  }

  lemma TagSplits(m: Byte, a: seq<Byte>, n: Byte, b: seq<Byte>)
    requires [m] + a == [n] + b
    ensures m == n && a == b
  {
    assert ([m] + a)[0] == m && ([n] + b)[0] == n;
    SplitAt([m], a, [n], b);
  }

  lemma ItemShape(x: Item, a: seq<Byte>, w: nat)
    requires Ascii(x.name)
    ensures EncodeItem(x, w) + a == [Tag(x)] + (Field(TextBytes(x.name), w) + (Body(x, w) + a))
  {
    var t, f, b := [Tag(x)], Field(TextBytes(x.name), w), Body(x, w);
    Regroup(t, f, b, a);
  }

  lemma Regroup(t: seq<Byte>, f: seq<Byte>, b: seq<Byte>, a: seq<Byte>)
    ensures t + f + b + a == t + (f + (b + a))
  {}

  /** Tag and name are determined by the stream. */
  lemma HeadSplits(x: Item, a: seq<Byte>, y: Item, b: seq<Byte>, w: nat)
    requires Encodable(x, w) && Encodable(y, w) && EncodeItem(x, w) + a == EncodeItem(y, w) + b
    ensures Tag(x) == Tag(y) && x.name == y.name && Body(x, w) + a == Body(y, w) + b
  {
    ItemShape(x, a, w);
    ItemShape(y, b, w);
    var p, q := Field(TextBytes(x.name), w), Field(TextBytes(y.name), w);
    var c, d := Body(x, w) + a, Body(y, w) + b;
    TagSplits(Tag(x), p + c, Tag(y), q + d);
    FieldSplits(TextBytes(x.name), c, TextBytes(y.name), d, w);
    TextBytesInjective(x.name, y.name);
  }

  /** The first item of a stream is determined by the stream. */
  lemma FirstItemSplits(x: Item, a: seq<Byte>, y: Item, b: seq<Byte>, w: nat)
    requires Encodable(x, w) && Encodable(y, w) && EncodeItem(x, w) + a == EncodeItem(y, w) + b
    ensures x == y && a == b
  {
    HeadSplits(x, a, y, b, w);
    if x.content.Some? {
      FieldSplits(x.content.value, a, y.content.value, b, w);
    } else {
      assert [] + a == a && [] + b == b;
    }
  }

  /** The stream determines the list of items. */
  lemma {:induction false} EncodeInjective(xs: seq<Item>, ys: seq<Item>, w: nat)
    requires AllEncodable(xs, w) && AllEncodable(ys, w) && Encode(xs, w) == Encode(ys, w)
    ensures xs == ys
    decreases |xs| + |ys|
  {
    if xs != [] && ys != [] {
      FirstItemSplits(xs[0], Encode(xs[1..], w), ys[0], Encode(ys[1..], w), w);
      EncodeInjective(xs[1..], ys[1..], w);
      assert xs == [xs[0]] + xs[1..] && ys == [ys[0]] + ys[1..];
    }
  }

  // ----- canonical order

  /** Strictly ascending by name. */
  ghost predicate Ascending(xs: seq<Item>) {
    forall i, j | 0 <= i < j < |xs| :: TextLess(xs[i].name, xs[j].name)
  }

  lemma FirstIsMember(xs: seq<Item>)
    ensures xs == [] || xs[0] in xs
  {}

  lemma {:induction false} AscendingIsUnique(xs: seq<Item>, ys: seq<Item>)
    requires Ascending(xs) && Ascending(ys) && forall x :: x in xs <==> x in ys
    ensures xs == ys
    decreases |xs|
  {
    FirstIsMember(xs);
    FirstIsMember(ys);
    if xs != [] {
      FirstsAgree(xs, ys);
      var a, b := xs[1..], ys[1..];
      forall x ensures x in a <==> x in b {
        TailMembers(xs, x);
        TailMembers(ys, x);
      }
      AscendingIsUnique(a, b);
      assert xs == [xs[0]] + a && ys == [ys[0]] + b;
    }
  }

  lemma FirstsAgree(xs: seq<Item>, ys: seq<Item>)
    requires Ascending(xs) && Ascending(ys) && xs != [] && ys != [] && xs[0] in ys && ys[0] in xs
    ensures xs[0] == ys[0]
  {
    var i :| 0 <= i < |ys| && ys[i] == xs[0];
    var j :| 0 <= j < |xs| && xs[j] == ys[0];
    if i > 0 && j > 0 {
      TextTransitive(xs[0].name, ys[0].name, xs[0].name);
      TextIrreflexive(xs[0].name);
    }
  }

  lemma TailMembers(xs: seq<Item>, x: Item)
    requires Ascending(xs) && xs != []
    ensures x in xs[1..] <==> x in xs && x != xs[0]
  {
    TextIrreflexive(xs[0].name);
    assert forall i | 1 <= i < |xs| :: xs[i] == xs[1..][i - 1];
  }

  // ----- the digest's input

  /** What the archive rules imply for the names they accept. */
  ghost predicate Portable(valid: string -> bool) {
    forall n | valid(n) :: Ascii(n) && |n| <= MAX_NAME
  }

  function Size(x: Item): nat {
    if x.content.Some? then |x.content.value| else 0
  }

  /** The bytes of all files together. */
  ghost function Total(items: set<Item>): nat
    decreases |items|
  {
    if items == {} then 0
    else
      var x :| x in items;
      Size(x) + Total(items - {x})
  }

  lemma {:induction false} TotalWith(items: set<Item>, x: Item)
    requires x !in items
    ensures Total(items + {x}) == Total(items) + Size(x)
    decreases |items|
  {
    var more := items + {x};
    var y :| y in more && Total(more) == Size(y) + Total(more - {y});
    if y == x {
      assert more - {y} == items;
    } else {
      assert more - {y} == items - {y} + {x} && items == items - {y} + {y};
      TotalWith(items - {y}, x);
      TotalWith(items - {y}, y);
    }
  }

  lemma {:induction false} TotalGrows(part: set<Item>, items: set<Item>)
    requires part <= items
    ensures Total(part) <= Total(items)
    decreases |items - part|
  {
    if part != items {
      var x :| x in items && x !in part;
      TotalWith(part, x);
      TotalGrows(part + {x}, items);
    }
  }

  lemma OneIsWithinTotal(x: Item, items: set<Item>)
    requires x in items
    ensures Size(x) <= Total(items)
  {
    assert {} + {x} == {x};
    TotalWith({}, x);
    TotalGrows({x}, items);
  }

  /** What the digest accepts: portable names, distinct without case, not too many, not too large. */
  ghost predicate Acceptable(t: Tree, valid: string -> bool) {
    && (forall p | p in Covered(t) :: valid(NameOf(p)))
    && (forall p, q | p in Covered(t) && q in Covered(t) && p != q ::
          LowerAscii(NameOf(p)) != LowerAscii(NameOf(q)))
    && |Covered(t)| <= MAX_PACKAGE_FILES
    && Total(Items(t)) <= MAX_EXTRACTED_BYTES
  }

  /** The list that is hashed: every covered entry once, in ascending order of names. */
  ghost predicate Canonical(t: Tree, xs: seq<Item>) {
    Ascending(xs) && forall x :: x in xs <==> x in Items(t)
  }

  /** Insertion into a list sorted by name. */
  function Insert(xs: seq<Item>, x: Item): seq<Item> {
    if xs == [] || TextLess(x.name, xs[0].name) then [x] + xs else [xs[0]] + Insert(xs[1..], x)
  }

  lemma {:induction false} InsertMembers(xs: seq<Item>, x: Item)
    ensures forall y :: y in Insert(xs, x) <==> y in xs || y == x
  {
    if xs != [] && !TextLess(x.name, xs[0].name) {
      InsertMembers(xs[1..], x);
      assert xs == [xs[0]] + xs[1..];
    }
  }

  /** The head of a list comes before everything in an ascending tail. */
  lemma AscendingCons(x: Item, tail: seq<Item>)
    requires Ascending(tail) && (tail != [] ==> TextLess(x.name, tail[0].name))
    ensures Ascending([x] + tail)
  {
    forall j | 0 <= j < |tail| ensures TextLess(x.name, tail[j].name) {
      if j > 0 { TextTransitive(x.name, tail[0].name, tail[j].name); }
    }
  }

  lemma {:induction false} InsertAscends(xs: seq<Item>, x: Item)
    requires Ascending(xs) && forall y | y in xs :: y.name != x.name
    ensures Ascending(Insert(xs, x))
  {
    if xs == [] || TextLess(x.name, xs[0].name) {
      AscendingCons(x, xs);
    } else {
      var tail := Insert(xs[1..], x);
      InsertAscends(xs[1..], x);
      InsertMembers(xs[1..], x);
      assert xs[0] in xs;
      TextTotal(x.name, xs[0].name);
      assert tail[0] in tail;
      if tail[0] != x {
        var i :| 0 <= i < |xs[1..]| && xs[1..][i] == tail[0];
        assert xs[i + 1] == tail[0];
      }
      AscendingCons(xs[0], tail);
    }
  }

  datatype DigestError = InvalidName | DuplicateName | TooManyEntries | TooLarge

  /** After the first `i` paths: their folded names, and their items in order. */
  ghost predicate Collected(t: Tree, valid: string -> bool, paths: seq<Rel>, i: nat, names: set<string>, files: seq<Item>)
    requires i <= |paths|
  {
    && (forall p | p in paths[..i] :: p in t && valid(NameOf(p)))
    && names == (set p | p in paths[..i] :: LowerAscii(NameOf(p)))
    && (forall j, k | 0 <= j < k < i :: LowerAscii(NameOf(paths[j])) != LowerAscii(NameOf(paths[k])))
    && Ascending(files)
    && (forall x :: x in files <==> exists p :: p in paths[..i] && p in t && x == ItemOf(t, p))
  }

  lemma CollectOne(t: Tree, valid: string -> bool, paths: seq<Rel>, i: nat, names: set<string>, files: seq<Item>)
    requires i < |paths| && Collected(t, valid, paths, i, names, files)
    requires paths[i] in t && valid(NameOf(paths[i])) && LowerAscii(NameOf(paths[i])) !in names
    ensures Collected(t, valid, paths, i + 1, names + {LowerAscii(NameOf(paths[i]))}, Insert(files, ItemOf(t, paths[i])))
  {
    var x := ItemOf(t, paths[i]);
    assert paths[..i + 1] == paths[..i] + [paths[i]];
    forall y | y in files ensures y.name != x.name {
      var p :| p in paths[..i] && p in t && y == ItemOf(t, p);
      assert LowerAscii(NameOf(p)) in names;
    }
    forall j | 0 <= j < i ensures LowerAscii(NameOf(paths[j])) != LowerAscii(NameOf(paths[i])) {
      assert paths[..i][j] == paths[j];
    }
    InsertAscends(files, x);
    InsertMembers(files, x);
  }

  ghost function ItemSet(files: seq<Item>): set<Item> {
    set x | x in files
  }

  /** One more entry adds its size. */
  lemma TotalOne(t: Tree, valid: string -> bool, paths: seq<Rel>, i: nat, names: set<string>, files: seq<Item>)
    requires i < |paths| && Collected(t, valid, paths, i, names, files)
    requires paths[i] in t && LowerAscii(NameOf(paths[i])) !in names
    ensures var x := ItemOf(t, paths[i]);
            Total(ItemSet(Insert(files, x))) == Total(ItemSet(files)) + Size(x)
  {
    var x := ItemOf(t, paths[i]);
    forall y | y in files ensures y.name != x.name {
      var p :| p in paths[..i] && p in t && y == ItemOf(t, p);
      assert LowerAscii(NameOf(p)) in names;
    }
    InsertMembers(files, x);
    assert ItemSet(Insert(files, x)) == ItemSet(files) + {x};
    TotalWith(ItemSet(files), x);
  }

  /** What was collected is part of the tree, so a total over the limit is the tree's fault. */
  lemma TooLargeIsUnacceptable(t: Tree, valid: string -> bool, paths: seq<Rel>, i: nat, names: set<string>, files: seq<Item>)
    requires i <= |paths| && Collected(t, valid, paths, i, names, files) && Total(ItemSet(files)) > MAX_EXTRACTED_BYTES
    requires forall p :: p in paths <==> p in Covered(t)
    ensures !Acceptable(t, valid)
  {
    forall x | x in files ensures x in Items(t) {
      var p :| p in paths[..i] && p in t && x == ItemOf(t, p);
      assert p in paths;
    }
    TotalGrows(ItemSet(files), Items(t));
  }

  /** The worklist's answer: every covered entry, each once. */
  ghost predicate Listing(t: Tree, paths: seq<Rel>) {
    && (forall p :: p in paths <==> p in Covered(t))
    && (forall i, j | 0 <= i < j < |paths| :: paths[i] != paths[j])
    && |Covered(t)| == |paths|
  }

  ghost predicate Collecting(
    t: Tree, valid: string -> bool, paths: seq<Rel>, i: nat, names: set<string>, files: seq<Item>, total: nat)
  {
    && i <= |paths| && i <= MAX_PACKAGE_FILES
    && Collected(t, valid, paths, i, names, files)
    && total == Total(ItemSet(files)) <= MAX_EXTRACTED_BYTES
  }

  /** One entry: refused only if the tree is not acceptable, or taken up. */
  method CollectEntry(
    t: Tree, valid: string -> bool, paths: seq<Rel>, i: nat, names: set<string>, files: seq<Item>, total: nat)
    returns (fault: Option<DigestError>, names': set<string>, files': seq<Item>, total': nat)
    requires i < |paths| && Collecting(t, valid, paths, i, names, files, total) && Listing(t, paths)
    ensures fault.Some? ==> !Acceptable(t, valid)
    ensures fault.None? ==> Collecting(t, valid, paths, i + 1, names', files', total')
  {
    fault, names', files', total' := None, names, files, total;
    assert paths[i] in paths;
    var name := NameOf(paths[i]);
    if !valid(name) { return Some(InvalidName), names, files, total; }
    if LowerAscii(name) in names {
      DuplicateIsUnacceptable(t, valid, paths, i, names, files);
      return Some(DuplicateName), names, files, total;
    }
    if i + 1 > MAX_PACKAGE_FILES { return Some(TooManyEntries), names, files, total; }
    CollectOne(t, valid, paths, i, names, files);
    TotalOne(t, valid, paths, i, names, files);
    names' := names + {LowerAscii(name)};
    files' := Insert(files, ItemOf(t, paths[i]));
    total' := total + Size(ItemOf(t, paths[i]));
    if total' > MAX_EXTRACTED_BYTES {
      TooLargeIsUnacceptable(t, valid, paths, i + 1, names', files');
      fault := Some(TooLarge);
    }
  }

  /** Succeeds exactly on acceptable trees, with their canonical list. */
  method CollectItems(t: Tree, valid: string -> bool) returns (r: Result<seq<Item>, DigestError>)
    requires WellFormed(t)
    ensures r.Ok? <==> Acceptable(t, valid)
    ensures r.Ok? ==> Canonical(t, r.value)
  {
    var paths := Walk(t);
    PathsCount(t, paths);
    var names: set<string>, files: seq<Item>, total: nat := {}, [], 0;
    var fault: Option<DigestError>;
    assert ItemSet(files) == {};
    for i := 0 to |paths|
      invariant Collecting(t, valid, paths, i, names, files, total)
    {
      fault, names, files, total := CollectEntry(t, valid, paths, i, names, files, total);
      if fault.Some? { return Err(fault.value); }
    }
    AllCollected(t, valid, paths, names, files);
    r := Ok(files);
  }

  lemma PathsCount(t: Tree, paths: seq<Rel>)
    requires forall p :: p in paths <==> p in Covered(t)
    requires forall i, j | 0 <= i < j < |paths| :: paths[i] != paths[j]
    ensures |Covered(t)| == |paths|
  {
    assert Covered(t) == set p | p in paths;
    DistinctCount(paths);
  }

  lemma {:induction false} DistinctCount(s: seq<Rel>)
    requires forall i, j | 0 <= i < j < |s| :: s[i] != s[j]
    ensures |set p | p in s| == |s|
  {
    if s != [] {
      var n := |s| - 1;
      DistinctCount(s[..n]);
      assert (set p | p in s) == (set p | p in s[..n]) + {s[n]};
    }
  }

  lemma DuplicateIsUnacceptable(t: Tree, valid: string -> bool, paths: seq<Rel>, i: nat, names: set<string>, files: seq<Item>)
    requires i < |paths| && Collected(t, valid, paths, i, names, files) && LowerAscii(NameOf(paths[i])) in names
    requires forall p :: p in paths <==> p in Covered(t)
    requires forall j, k | 0 <= j < k < |paths| :: paths[j] != paths[k]
    ensures !Acceptable(t, valid)
  {
    var p :| p in paths[..i] && LowerAscii(NameOf(p)) == LowerAscii(NameOf(paths[i]));
    var j :| 0 <= j < i && paths[..i][j] == p;
    assert paths[j] in paths && paths[i] in paths && paths[j] != paths[i];
  }

  lemma AllCollected(t: Tree, valid: string -> bool, paths: seq<Rel>, names: set<string>, files: seq<Item>)
    requires Collected(t, valid, paths, |paths|, names, files) && |paths| <= MAX_PACKAGE_FILES
    requires (forall p :: p in paths <==> p in Covered(t)) && |Covered(t)| == |paths|
    requires Total(ItemSet(files)) <= MAX_EXTRACTED_BYTES
    ensures Acceptable(t, valid) && Canonical(t, files)
  {
    assert paths[..|paths|] == paths;
    forall x ensures x in files <==> x in Items(t) {
      if x in Items(t) { var p :| p in Covered(t) && x == ItemOf(t, p); }
    }
    assert ItemSet(files) == Items(t);
    forall p, q | p in Covered(t) && q in Covered(t) && p != q ensures LowerAscii(NameOf(p)) != LowerAscii(NameOf(q)) {
      var j :| 0 <= j < |paths| && paths[j] == p;
      var k :| 0 <= k < |paths| && paths[k] == q;
    }
  }

  // ----- the stream determines the tree

  lemma {:induction false} SlashesIdentity(s: string)
    requires '\\' !in s
    ensures Slashes(s) == s
  {
    if s != "" { SlashesIdentity(s[1..]); }
  }

  lemma {:induction false} JoinHasNoBackslash(parts: seq<string>)
    requires forall i | 0 <= i < |parts| :: '\\' !in parts[i]
    ensures '\\' !in Join(parts)
  {
    if |parts| > 1 { JoinHasNoBackslash(parts[1..]); }
  }

  ghost predicate PlainParts(parts: seq<string>) {
    forall i | 0 <= i < |parts| :: parts[i] != "" && '/' !in parts[i]
  }

  /** Where the first component ends is determined by the joined name. */
  lemma HeadPart(a: string, x: string, b: string, y: string)
    requires '/' !in a && '/' !in b && a + "/" + x == b + "/" + y
    ensures a == b && x == y
  {
    var s, t := a + "/" + x, b + "/" + y;
    assert s[|a|] == '/' && t[|b|] == '/';
    assert forall i | 0 <= i < |a| :: s[i] == a[i];
    assert forall i | 0 <= i < |b| :: t[i] == b[i];
    assert |a| == |b|;
    assert a == s[..|a|] && b == t[..|b|];
    assert x == s[|a| + 1..] && y == t[|b| + 1..];
  }

  /** How many components a joined name has shows in its text: none, one without '/', or more. */
  lemma JoinShape(p: seq<string>)
    requires PlainParts(p)
    ensures |p| == 0 <==> Join(p) == ""
    ensures |p| >= 2 <==> '/' in Join(p)
  {
    if |p| >= 2 {
      assert Join(p)[|p[0]|] == '/';
    }
  }

  lemma {:induction false} JoinInjective(p: seq<string>, q: seq<string>)
    requires PlainParts(p) && PlainParts(q) && Join(p) == Join(q)
    ensures p == q
    decreases |p|
  {
    JoinShape(p);
    JoinShape(q);
    if |p| >= 2 {
      HeadPart(p[0], Join(p[1..]), q[0], Join(q[1..]));
      JoinInjective(p[1..], q[1..]);
      assert p == [p[0]] + p[1..] && q == [q[0]] + q[1..];
    }
  }

  lemma NameInjective(p: Rel, q: Rel)
    requires PlainParts(p.parts) && PlainParts(q.parts) && !HasBackslash(p) && !HasBackslash(q)
    requires NameOf(p) == NameOf(q)
    ensures p == q
  {
    JoinHasNoBackslash(p.parts);
    JoinHasNoBackslash(q.parts);
    SlashesIdentity(Join(p.parts));
    SlashesIdentity(Join(q.parts));
    JoinInjective(p.parts, q.parts);
  }

  ghost predicate NoBackslashes(t: Tree) {
    forall p | p in Covered(t) :: !HasBackslash(p)
  }

  /** One tree's covered entries are among the other's when their items are. */
  lemma ItemsDetermineEntries(t: Tree, u: Tree, p: Rel)
    requires WellFormed(t) && WellFormed(u) && NoBackslashes(t) && NoBackslashes(u)
    requires p in Covered(t) && ItemOf(t, p) in Items(u)
    ensures p in Covered(u) && t[p] == u[p]
  {
    var q :| q in Covered(u) && ItemOf(u, q) == ItemOf(t, p);
    NameInjective(p, q);
  }

  /** Accepted names and files have lengths that eight bytes can hold. */
  lemma AcceptedIsEncodable(t: Tree, valid: string -> bool, xs: seq<Item>)
    requires Portable(valid) && Acceptable(t, valid) && Canonical(t, xs)
    ensures AllEncodable(xs, 8)
  {
    EightBytes(8);
    forall i | 0 <= i < |xs| ensures Encodable(xs[i], 8) {
      assert xs[i] in xs;
      var p :| p in Covered(t) && xs[i] == ItemOf(t, p);
      assert valid(NameOf(p));
      OneIsWithinTotal(xs[i], Items(t));
    }
  }

  lemma EightBytes(w: nat)
    requires w == 8
    ensures Power256(w) > MAX_EXTRACTED_BYTES && Power256(w) > MAX_NAME
  {
    assert Power256(w - 7) == 0x100;
    assert Power256(w - 6) == 0x1_0000;
    assert Power256(w - 4) == 0x1_0000_0000;
    assert Power256(w - 2) == 0x1_0000_0000_0000;
  }

  /**
   * Without backslashes in file names the hashed stream determines the accepted tree: equal streams
   * mean the same covered entries, kinds and bytes.
   */
  lemma StreamDeterminesTree(t: Tree, u: Tree, valid: string -> bool, xs: seq<Item>, ys: seq<Item>)
    requires WellFormed(t) && WellFormed(u) && NoBackslashes(t) && NoBackslashes(u)
    requires Portable(valid) && Acceptable(t, valid) && Acceptable(u, valid)
    requires Canonical(t, xs) && Canonical(u, ys)
    ensures AllEncodable(xs, 8) && AllEncodable(ys, 8)
    ensures Encode(xs, 8) == Encode(ys, 8) ==>
              Covered(t) == Covered(u) && forall p | p in Covered(t) :: t[p] == u[p]
  {
    AcceptedIsEncodable(t, valid, xs);
    AcceptedIsEncodable(u, valid, ys);
    if Encode(xs, 8) == Encode(ys, 8) {
      EncodeInjective(xs, ys, 8);
      ItemsDetermineTree(t, u);
    }
  }

  lemma ItemsDetermineTree(t: Tree, u: Tree)
    requires WellFormed(t) && WellFormed(u) && NoBackslashes(t) && NoBackslashes(u)
    requires Items(t) == Items(u)
    ensures Covered(t) == Covered(u) && forall p | p in Covered(t) :: t[p] == u[p]
  {
    forall p | p in Covered(t) ensures p in Covered(u) && t[p] == u[p] {
      assert ItemOf(t, p) in Items(t);
      ItemsDetermineEntries(t, u, p);
    }
    forall p | p in Covered(u) ensures p in Covered(t) {
      assert ItemOf(u, p) in Items(u);
      ItemsDetermineEntries(u, t, p);
    }
  }

  /** Conversely the stream does not depend on the order directories were listed in. */
  lemma StreamIsCanonical(t: Tree, xs: seq<Item>, ys: seq<Item>)
    requires Canonical(t, xs) && Canonical(t, ys)
    ensures xs == ys
  {
    AscendingIsUnique(xs, ys);
  }

  /** The copy hashes to the same stream as the original. */
  lemma CopyHasSameStream(t: Tree, copy: Tree, xs: seq<Item>)
    requires copy == map p | p in Covered(t) :: t[p]
    requires Canonical(t, xs)
    ensures Canonical(copy, xs)
  {
    assert Covered(copy) == Covered(t);
    assert Items(copy) == Items(t);
  }

  /**
   * With backslashes the stream is ambiguous: a file called `a\b` next to a directory `a` reads
   * exactly like a file `b` inside it, and both trees pass the same checks on names.
   */
  lemma BackslashIsAmbiguous(content: seq<Byte>)
    ensures var a, ab, flat := Rel(["a"]), Rel(["a", "b"]), Rel(["a\\b"]);
            var nested: Tree := map[a := Directory, ab := File(content)];
            var beside: Tree := map[a := Directory, flat := File(content)];
            && nested != beside && NameOf(ab) == NameOf(flat) == "a/b"
            && WellFormed(nested) && WellFormed(beside)
            && Items(nested) == Items(beside)
  {
    var a, ab, flat := Rel(["a"]), Rel(["a", "b"]), Rel(["a\\b"]);
    var nested: Tree := map[a := Directory, ab := File(content)];
    var beside: Tree := map[a := Directory, flat := File(content)];
    SampleNames();
    assert Parent(ab) == a && Parent(a) == ROOT && Parent(flat) == ROOT;
    assert Covered(nested) == {a, ab};
    assert Covered(beside) == {a, flat};
    assert ab !in beside;
    assert Items(nested) == {ItemOf(nested, a), ItemOf(nested, ab)};
    assert Items(beside) == {ItemOf(beside, a), ItemOf(beside, flat)};
  }

  lemma SampleNames()
    ensures NameOf(Rel(["a"])) == "a"
    ensures NameOf(Rel(["a", "b"])) == "a/b"
    ensures NameOf(Rel(["a\\b"])) == "a/b"
  {
    assert Join(["a"]) == "a";
    assert Join(["a", "b"]) == "a" + "/" + Join(["b"]) == "a/b";
    assert Join(["a\\b"]) == "a\\b";
    assert Slashes("a") == "a";
    assert Slashes("a/b") == "a/b";
    assert Slashes("a\\b") == "a/b";
  }
}
