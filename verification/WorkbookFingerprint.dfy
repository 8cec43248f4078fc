/**
 The byte stream behind the workbook fingerprint: which archives share one, and that the hash is
 fed exactly it.
 */
module WorkbookFingerprint {
  import opened Repetition
  import opened Wrappers
  import opened Utf8
  import TextSort

  // -- Framing --------------------------------------------------------------

  function Pow256(w: nat): (p: nat)
    ensures p >= 1
  {
    if w == 0 then 1 else 256 * Pow256(w - 1)
  }

  /** `n.to_bytes(width, "big")`, for an `n` that fits. */
  function BigEndian(n: nat, width: nat): (bytes: seq<Byte>)
    ensures |bytes| == width
  {
    if width == 0 then [] else BigEndian(n / 256, width - 1) + [n % 256]
  }

  predicate Fits(n: nat) {
    n < Pow256(8)
  }

  lemma {:induction false} BigEndianIsInjective(n: nat, m: nat, width: nat)
    requires n < Pow256(width) && m < Pow256(width) && BigEndian(n, width) == BigEndian(m, width)
    ensures n == m
  {
    if width > 0 {
      var a, b := BigEndian(n, width), BigEndian(m, width);
      assert a[..width - 1] == BigEndian(n / 256, width - 1) && b[..width - 1] == BigEndian(m / 256, width - 1);
      assert a[width - 1] == b[width - 1];
      BigEndianIsInjective(n / 256, m / 256, width - 1);
    }
  }

  datatype Frame = Frame(name: seq<Byte>, content: seq<Byte>)

  predicate FrameFits(f: Frame) {
    Fits(|f.name|) && Fits(|f.content|)
  }

  function Field(bytes: seq<Byte>): seq<Byte> {
    BigEndian(|bytes|, 8) + bytes
  }

  function Frames(frames: seq<Frame>): seq<Byte> {
    if frames == [] then [] else Field(frames[0].name) + Field(frames[0].content) + Frames(frames[1..])
  }

  lemma FieldIsSelfDelimiting(a: seq<Byte>, x: seq<Byte>, b: seq<Byte>, y: seq<Byte>)
    requires Fits(|a|) && Fits(|b|) && Field(a) + x == Field(b) + y
    ensures a == b && x == y
  {
    var s := Field(a) + x;
    assert s[..8] == BigEndian(|a|, 8) && s[..8] == BigEndian(|b|, 8);
    BigEndianIsInjective(|a|, |b|, 8);
    assert a == s[8..8 + |a|] && b == s[8..8 + |b|];
    assert x == s[8 + |a|..] && y == s[8 + |b|..];
  }

  lemma FirstFrame(f: seq<Frame>)
    requires f != []
    ensures Frames(f) == Field(f[0].name) + (Field(f[0].content) + Frames(f[1..]))
  {
  }

  lemma {:induction false} FramesAreUniquelyDecodable(f: seq<Frame>, g: seq<Frame>)
    requires |f| == |g| && Frames(f) == Frames(g)
    requires forall k :: 0 <= k < |f| ==> FrameFits(f[k]) && FrameFits(g[k])
    ensures f == g
  {
    if f != [] {
      var x, y := Frames(f[1..]), Frames(g[1..]);
      FirstFrame(f);
      FirstFrame(g);
      FieldIsSelfDelimiting(f[0].name, Field(f[0].content) + x, g[0].name, Field(g[0].content) + y);
      FieldIsSelfDelimiting(f[0].content, x, g[0].content, y);
      FramesAreUniquelyDecodable(f[1..], g[1..]);
      assert f == [f[0]] + f[1..] && g == [g[0]] + g[1..];
    }
  }

  // -- Archives -------------------------------------------------------------

  /** The members of a ZIP container, in container order. */
  datatype Entry = Entry(name: string, content: seq<Byte>)

  function Names(archive: seq<Entry>): seq<string> {
    seq(|archive|, k requires 0 <= k < |archive| => archive[k].name)
  }

  predicate EntryFits(e: Entry) {
    Fits(|Encode(e.name)|) && Fits(|e.content|)
  }

  /** Sizes `to_bytes(8)` can express; every real container is within them. */
  predicate Sized(archive: seq<Entry>) {
    Fits(|archive|) && forall k :: 0 <= k < |archive| ==> EntryFits(archive[k])
  }

  /** `ZipFile.read` */
  function Read(archive: seq<Entry>, name: string): seq<Byte>
    requires name in Names(archive)
  {
    if archive[0].name == name then archive[0].content
    else
      assert Names(archive)[1..] == Names(archive[1..]);
      Read(archive[1..], name)
  }

  function FrameOf(archive: seq<Entry>, name: string): Frame
    requires name in Names(archive)
  {
    Frame(Encode(name), Read(archive, name))
  }

  function FrameAll(archive: seq<Entry>, names: seq<string>): seq<Frame>
    requires forall k :: 0 <= k < |names| ==> names[k] in Names(archive)
  {
    seq(|names|, k requires 0 <= k < |names| => FrameOf(archive, names[k]))
  }

  lemma SortedNamesAreNames(archive: seq<Entry>)
    ensures var names := TextSort.Sort(Names(archive));
            && |names| == |archive|
            && forall k :: 0 <= k < |names| ==> names[k] in Names(archive)
    ensures forall name :: name in Names(archive) ==> name in TextSort.Sort(Names(archive))
  {
    var names := TextSort.Sort(Names(archive));
    TextSort.SortSorts(Names(archive));
    assert |multiset(names)| == |multiset(Names(archive))|;
    forall k | 0 <= k < |names| ensures names[k] in Names(archive) {
      assert names[k] in multiset(names);
    }
    forall name | name in Names(archive) ensures name in names {
      assert name in multiset(Names(archive));
    }
  }

  /** What the hash is fed after its domain prefix: the count, then the members in name order. */
  function Stream(archive: seq<Entry>): seq<Byte> {
    SortedNamesAreNames(archive);
    BigEndian(|archive|, 8) + Frames(FrameAll(archive, TextSort.Sort(Names(archive))))
  }

  lemma {:induction false} ReadFindsTheEntry(archive: seq<Entry>, k: nat)
    requires k < |archive| && NoRepeat(Names(archive))
    ensures archive[k].name in Names(archive) && Read(archive, archive[k].name) == archive[k].content
  {
    assert Names(archive)[k] == archive[k].name;
    if k > 0 {
      assert Names(archive)[0] == archive[0].name;
      assert Names(archive[1..]) == Names(archive)[1..];
      ReadFindsTheEntry(archive[1..], k - 1);
    }
  }

  lemma {:induction false} ReadIsAnEntry(archive: seq<Entry>, name: string)
    requires name in Names(archive)
    ensures Entry(name, Read(archive, name)) in archive
  {
    if archive[0].name != name {
      assert Names(archive)[1..] == Names(archive[1..]);
      ReadIsAnEntry(archive[1..], name);
    } else {
      assert archive[0] == Entry(name, Read(archive, name));
    }
  }

  lemma EntriesAreDistinct(archive: seq<Entry>)
    requires NoRepeat(Names(archive))
    ensures NoRepeat(archive)
  {
    forall i, j | 0 <= i < j < |archive| ensures archive[i] != archive[j] {
      assert Names(archive)[i] != Names(archive)[j];
    }
  }

  /** Reordering the container changes nothing that is hashed. */
  lemma ContainerOrderIsIgnored(a: seq<Entry>, b: seq<Entry>)
    requires NoRepeat(Names(a)) && NoRepeat(Names(b)) && multiset(a) == multiset(b)
    ensures Stream(a) == Stream(b)
  {
    assert |a| == |multiset(a)| == |b|;
    forall x ensures x in Names(a) <==> x in Names(b) {
      if x in Names(a) { SameReading(a, b, x); }
      if x in Names(b) { SameReading(b, a, x); }
    }
    NoRepeatPermutation(Names(a), Names(b));
    TextSort.SortForgetsOrder(Names(a), Names(b));
    SortedNamesAreNames(a);
    SortedNamesAreNames(b);
    var names := TextSort.Sort(Names(a));
    forall k | 0 <= k < |names| ensures FrameOf(a, names[k]) == FrameOf(b, names[k]) {
      SameReading(a, b, names[k]);
    }
    assert FrameAll(a, names) == FrameAll(b, names);
  }

  lemma SameReading(a: seq<Entry>, b: seq<Entry>, name: string)
    requires NoRepeat(Names(b)) && multiset(a) == multiset(b) && name in Names(a)
    ensures name in Names(b) && Read(a, name) == Read(b, name)
  {
    ReadIsAnEntry(a, name);
    var e := Entry(name, Read(a, name));
    assert e in multiset(b);
    var k :| 0 <= k < |b| && b[k] == e;
    ReadFindsTheEntry(b, k);
  }

  /** And two streams agree only when the archives hold the same members. */
  lemma StreamIsUniquelyDecodable(a: seq<Entry>, b: seq<Entry>)
    requires NoRepeat(Names(a)) && NoRepeat(Names(b)) && Sized(a) && Sized(b)
    requires Stream(a) == Stream(b)
    ensures multiset(a) == multiset(b)
  {
    SortedNamesAreNames(a);
    SortedNamesAreNames(b);
    var m, n := TextSort.Sort(Names(a)), TextSort.Sort(Names(b));
    var f, g := FrameAll(a, m), FrameAll(b, n);
    assert Stream(a)[..8] == BigEndian(|a|, 8) && Stream(b)[..8] == BigEndian(|b|, 8);
    BigEndianIsInjective(|a|, |b|, 8);
    assert Frames(f) == Stream(a)[8..] && Frames(g) == Stream(b)[8..];
    FramesFit(a, m);
    FramesFit(b, n);
    FramesAreUniquelyDecodable(f, g);
    forall e ensures e in a <==> e in b {
      if e in a { FramedEntry(a, b, m, n, e); }
      if e in b { FramedEntry(b, a, n, m, e); }
    }
    EntriesAreDistinct(a);
    EntriesAreDistinct(b);
    NoRepeatPermutation(a, b);
  }

  lemma FramesFit(a: seq<Entry>, names: seq<string>)
    requires Sized(a) && forall k :: 0 <= k < |names| ==> names[k] in Names(a)
    ensures forall k :: 0 <= k < |names| ==> FrameFits(FrameAll(a, names)[k])
  {
    forall k | 0 <= k < |names| ensures FrameFits(FrameAll(a, names)[k]) {
      ReadIsAnEntry(a, names[k]);
      var e := Entry(names[k], Read(a, names[k]));
      var i :| 0 <= i < |a| && a[i] == e;
      assert EntryFits(a[i]);
    }
  }

  lemma FramedEntry(a: seq<Entry>, b: seq<Entry>, m: seq<string>, n: seq<string>, e: Entry)
    requires NoRepeat(Names(a)) && e in a
    requires forall k :: 0 <= k < |m| ==> m[k] in Names(a)
    requires forall k :: 0 <= k < |n| ==> n[k] in Names(b)
    requires forall name :: name in Names(a) ==> name in m
    requires FrameAll(a, m) == FrameAll(b, n)
    ensures e in b
  {
    var i :| 0 <= i < |a| && a[i] == e;
    ReadFindsTheEntry(a, i);
    var k :| 0 <= k < |m| && m[k] == e.name;
    assert |m| == |FrameAll(a, m)| == |n|;
    assert FrameAll(a, m)[k] == FrameOf(a, m[k]) && FrameAll(b, n)[k] == FrameOf(b, n[k]);
    EncodeIsInjective(m[k], n[k]);
    ReadIsAnEntry(b, n[k]);
  }

  /**
   The fingerprint's input identifies the archive's members and nothing else: two archives without
   a repeated name feed the hash the same bytes exactly when they hold the same members.
   */
  lemma StreamIdentifiesTheMembers(a: seq<Entry>, b: seq<Entry>)
    requires NoRepeat(Names(a)) && NoRepeat(Names(b)) && Sized(a) && Sized(b)
    ensures Stream(a) == Stream(b) <==> multiset(a) == multiset(b)
  {
    if Stream(a) == Stream(b) {
      StreamIsUniquelyDecodable(a, b);
    }
    if multiset(a) == multiset(b) {
      ContainerOrderIsIgnored(a, b);
    }
  }

  // -- Feeding the hash -----------------------------------------------------

  /** A `hashlib` object: what it has been fed so far. */
  class Digest {
    var fed: seq<Byte>

    constructor (prefix: seq<Byte>)
      ensures fed == prefix
    {
      fed := prefix;
    }

    method Update(bytes: seq<Byte>)
      modifies this
      ensures fed == old(fed) + bytes
    {
      fed := fed + bytes;
    }
  }

  /** `workbook_content_fingerprint`, up to the hash of what was fed. */
  method Fingerprint(domain: seq<Byte>, archive: seq<Entry>) returns (fed: Result<seq<Byte>, string>)
    requires Sized(archive)
    ensures fed == if NoRepeat(Names(archive)) then Ok(domain + Stream(archive))
                   else Err("composite_workbook_member_duplicated")
  {
    var digest := new Digest(domain);
    var names := TextSort.Sort(Names(archive));
    SortedNamesAreNames(archive);
    SetSizeIsDistinctness(names);
    SortDistinctIff(Names(archive));
    if |names| != |SetOf(names)| {
      return Err("composite_workbook_member_duplicated");
    }
    digest.Update(BigEndian(|names|, 8));
    FeedMembers(digest, archive, names);
    Regroup(domain, BigEndian(|names|, 8), Frames(FrameAll(archive, names)));
    fed := Ok(digest.fed);
  }

  lemma Regroup(a: seq<Byte>, b: seq<Byte>, c: seq<Byte>)
    ensures a + b + c == a + (b + c)
  {
  }

  /** The loop over the sorted names. */
  method FeedMembers(digest: Digest, archive: seq<Entry>, names: seq<string>)
    requires forall k :: 0 <= k < |names| ==> names[k] in Names(archive)
    modifies digest
    ensures digest.fed == old(digest.fed) + Frames(FrameAll(archive, names))
  {
    ghost var frames := FrameAll(archive, names);
    assert frames[0..] == frames;
    for k := 0 to |names|
      invariant digest.fed + Frames(frames[k..]) == old(digest.fed) + Frames(frames)
    {
      OneFrame(digest.fed, frames, k);
      FeedMember(digest, Encode(names[k]), Read(archive, names[k]));
    }
    assert frames[|names|..] == [];
  }

  method FeedMember(digest: Digest, encoded: seq<Byte>, content: seq<Byte>)
    modifies digest
    ensures digest.fed == old(digest.fed) + (Field(encoded) + Field(content))
  {
    digest.Update(BigEndian(|encoded|, 8));
    digest.Update(encoded);
    digest.Update(BigEndian(|content|, 8));
    digest.Update(content);
  }

  lemma OneFrame(before: seq<Byte>, frames: seq<Frame>, k: nat)
    requires k < |frames|
    ensures before + (Field(frames[k].name) + Field(frames[k].content)) + Frames(frames[k + 1..])
            == before + Frames(frames[k..])
  {
    assert frames[k..][1..] == frames[k + 1..];
    Regroup(before, Field(frames[k].name) + Field(frames[k].content), Frames(frames[k + 1..]));
  }

  lemma SortDistinctIff(s: seq<string>)
    ensures NoRepeat(TextSort.Sort(s)) <==> NoRepeat(s)
  {
    if NoRepeat(s) {
      TextSort.SortKeepsDistinct(s);
    }
    if NoRepeat(TextSort.Sort(s)) {
      TextSort.SortSorts(s);
      forall i, j | 0 <= i < j < |s| ensures s[i] != s[j] {
        CountsOnce(TextSort.Sort(s), s[i]);
        if s[i] == s[j] {
          RepeatsCountTwice(s, i, j);
        }
      }
    }
  }
}
