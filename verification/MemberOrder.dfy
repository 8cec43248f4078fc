/** What the order of object members does to the insertion-ordered listing, and how declared fields undo it. */
module MemberOrder {
  import opened Wrappers
  import opened Json
  import opened Repetition
  import opened ScalarPointers

  // -- When a replay keeps the listing --------------------------------------

  /** Somewhere in it there is a scalar, so a listing has something to list. */
  ghost predicate Bears(j: Json)
    requires WellFormed(j)
  {
    exists path :: IsLeaf(j, path)
  }

  /** The steps of a list that lead to scalars, in its order. */
  ghost function Bearing(j: Json, steps: seq<Step>): (r: seq<Step>)
    requires WellFormed(j) && forall s :: s in steps ==> Has(j, s)
    ensures forall s :: s in r <==> s in steps && Bears(Child(j, s))
  {
    if steps == [] then []
    else (if Bears(Child(j, steps[0])) then [steps[0]] else []) + Bearing(j, steps[1..])
  }

  /** At every object the members that lead to scalars stand in the same order. */
  ghost predicate SameOrder(a: Json, b: Json)
    requires WellFormed(a) && WellFormed(b)
    decreases a
  {
    StepsAreTheMembers(a, false);
    StepsAreTheMembers(b, false);
    && Bearing(a, Steps(a, false)) == Bearing(b, Steps(b, false))
    && forall s :: Has(a, s) && Has(b, s) ==> SameOrder(Child(a, s), Child(b, s))
  }

  /** The listing of a member, under the pointer that leads to it. */
  function Below(j: Json, s: Step, pointer: string): seq<string>
    requires WellFormed(j) && Has(j, s)
  {
    Pointers(Child(j, s), pointer + "/" + Token(s), false)
  }

  lemma ListingIffBears(j: Json, pointer: string)
    requires WellFormed(j)
    ensures Pointers(j, pointer, false) != [] <==> Bears(j)
  {
    if Pointers(j, pointer, false) != [] {
      var path := ListedIsALeaf(j, pointer, false, Pointers(j, pointer, false)[0]);
    }
    if Bears(j) {
      var path :| IsLeaf(j, path);
      LeafIsListed(j, pointer, false, path);
    }
  }

  /** What leads nowhere adds nothing. */
  lemma {:induction false} UnderBearing(j: Json, steps: seq<Step>, pointer: string)
    requires WellFormed(j) && forall s :: s in steps ==> Has(j, s)
    ensures Under(j, Bearing(j, steps), pointer, false) == Under(j, steps, pointer, false)
  {
    if steps != [] {
      UnderBearing(j, steps[1..], pointer);
      ListingIffBears(Child(j, steps[0]), pointer + "/" + Token(steps[0]));
      if Bears(Child(j, steps[0])) {
        assert Bearing(j, steps)[1..] == Bearing(j, steps[1..]);
      } else {
        assert Bearing(j, steps) == Bearing(j, steps[1..]);
      }
    }
  }

  lemma SameLeaf(a: Json, b: Json, path: seq<Step>)
    requires WellFormed(a) && WellFormed(b) && Same(a, b)
    ensures IsLeaf(a, path) <==> IsLeaf(b, path)
  {
    SameWalk(a, b, path);
  }

  /** Documents that are the same are listed at the same length, and bear scalars alike. */
  lemma SameLength(a: Json, b: Json, pointer: string)
    requires WellFormed(a) && WellFormed(b) && Same(a, b)
    ensures |Pointers(a, pointer, false)| == |Pointers(b, pointer, false)|
  {
    ListsEachLeafOnce(a, pointer, false);
    ListsEachLeafOnce(b, pointer, false);
    forall x ensures x in Pointers(a, pointer, false) <==> x in Pointers(b, pointer, false) {
      SameListed(a, b, pointer, x);
      SameListed(b, a, pointer, x);
    }
    NoRepeatPermutation(Pointers(a, pointer, false), Pointers(b, pointer, false));
    assert |multiset(Pointers(a, pointer, false))| == |multiset(Pointers(b, pointer, false))|;
  }

  lemma {:induction false} SameIsSymmetric(a: Json, b: Json)
    requires WellFormed(a) && WellFormed(b) && Same(a, b)
    ensures Same(b, a)
    decreases a
  {
    forall s | Has(b, s) && Has(a, s) ensures Same(Child(b, s), Child(a, s)) {
      SameIsSymmetric(Child(a, s), Child(b, s));
    }
  }

  lemma SameListed(a: Json, b: Json, pointer: string, x: string)
    requires WellFormed(a) && WellFormed(b) && (Same(a, b) || Same(b, a))
    ensures x in Pointers(a, pointer, false) ==> x in Pointers(b, pointer, false)
  {
    if x in Pointers(a, pointer, false) {
      var path := ListedIsALeaf(a, pointer, false, x);
      if Same(a, b) { SameLeaf(a, b, path); } else { SameLeaf(b, a, path); }
      LeafIsListed(b, pointer, false, path);
    }
  }

  lemma SameSteps(a: Json, b: Json, s: Step)
    requires WellFormed(a) && WellFormed(b) && Same(a, b)
    ensures Has(a, s) <==> Has(b, s)
    ensures Has(a, s) ==> Same(Child(a, s), Child(b, s)) && (Bears(Child(a, s)) <==> Bears(Child(b, s)))
  {
    SameWalk(a, b, [s]);
    assert [s][1..] == [];
    if Has(a, s) {
      forall path ensures IsLeaf(Child(a, s), path) <==> IsLeaf(Child(b, s), path) {
        SameLeaf(Child(a, s), Child(b, s), path);
      }
    }
  }

  /** The first pointer of a listing names the first step that leads anywhere. */
  lemma FirstListed(j: Json, steps: seq<Step>, pointer: string) returns (path: seq<Step>)
    requires WellFormed(j) && steps != [] && (forall s :: s in steps ==> Has(j, s)) && Bears(Child(j, steps[0]))
    ensures Under(j, steps, pointer, false) != []
    ensures path != [] && path[0] == steps[0] && IsLeaf(j, path)
    ensures Under(j, steps, pointer, false)[0] == pointer + Spell(path)
  {
    var at := pointer + "/" + Token(steps[0]);
    ListingIffBears(Child(j, steps[0]), at);
    var first := Pointers(Child(j, steps[0]), at, false);
    assert Under(j, steps, pointer, false)[0] == first[0];
    var rest := ListedIsALeaf(Child(j, steps[0]), at, false, first[0]);
    path := [steps[0]] + rest;
    SpellOneMore(pointer, steps[0], rest);
    assert path[1..] == rest;
  }

  /** Two equal listings start with the same step. */
  lemma SameFirst(a: Json, b: Json, sa: seq<Step>, sb: seq<Step>, pointer: string)
    requires WellFormed(a) && WellFormed(b) && Same(a, b) && sa != [] && sb != []
    requires forall s :: s in sa || s in sb ==> Has(a, s) && Has(b, s)
    requires Bears(Child(a, sa[0])) && Bears(Child(b, sb[0]))
    requires Under(a, sa, pointer, false) == Under(b, sb, pointer, false)
    ensures sa[0] == sb[0]
  {
    var p := FirstListed(a, sa, pointer);
    var q := FirstListed(b, sb, pointer);
    SameWalk(a, b, q);
    PointerSpellingIsUnique(a, pointer, p, q);
  }

  lemma EqualParts<T>(x: seq<T>, u: seq<T>, y: seq<T>, v: seq<T>)
    requires x + u == y + v && |x| == |y|
    ensures x == y && u == v
  {
    assert x == (x + u)[..|x|] && u == (x + u)[|x|..];
    assert y == (y + v)[..|y|] && v == (y + v)[|y|..];
  }

  /** The first steps of equal listings agree, and so does what is listed under them and after them. */
  lemma PeelFirst(a: Json, b: Json, sa: seq<Step>, sb: seq<Step>, pointer: string)
    requires WellFormed(a) && WellFormed(b) && Same(a, b) && sa != [] && sb != []
    requires forall s :: s in sa || s in sb ==> Has(a, s) && Has(b, s)
    requires Bears(Child(a, sa[0])) && Bears(Child(b, sb[0]))
    requires Under(a, sa, pointer, false) == Under(b, sb, pointer, false)
    ensures sa[0] == sb[0] && Below(a, sa[0], pointer) == Below(b, sa[0], pointer)
    ensures Under(a, sa[1..], pointer, false) == Under(b, sb[1..], pointer, false)
  {
    SameFirst(a, b, sa, sb, pointer);
    SameSteps(a, b, sa[0]);
    SameLength(Child(a, sa[0]), Child(b, sa[0]), pointer + "/" + Token(sa[0]));
    EqualParts(Below(a, sa[0], pointer), Under(a, sa[1..], pointer, false),
               Below(b, sa[0], pointer), Under(b, sb[1..], pointer, false));
  }

  /** Equal listings under steps that lead somewhere are listings under equal steps, part by part. */
  lemma {:induction false} Peel(a: Json, b: Json, sa: seq<Step>, sb: seq<Step>, pointer: string)
    requires WellFormed(a) && WellFormed(b) && Same(a, b)
    requires forall s :: s in sa || s in sb ==> Has(a, s) && Has(b, s)
    requires forall s :: s in sa ==> Bears(Child(a, s))
    requires forall s :: s in sb ==> Bears(Child(b, s))
    requires Under(a, sa, pointer, false) == Under(b, sb, pointer, false)
    ensures sa == sb
    ensures forall s :: s in sa ==> Below(a, s, pointer) == Below(b, s, pointer)
  {
    if sa == [] {
      if sb != [] {
        var q := FirstListed(b, sb, pointer);
      }
    } else if sb == [] {
      var p := FirstListed(a, sa, pointer);
    } else {
      PeelFirst(a, b, sa, sb, pointer);
      Peel(a, b, sa[1..], sb[1..], pointer);
      assert sa == [sa[0]] + sa[1..] && sb == [sb[0]] + sb[1..];
    }
  }

  lemma {:induction false} UnderAgrees(a: Json, b: Json, steps: seq<Step>, pointer: string)
    requires WellFormed(a) && WellFormed(b) && forall s :: s in steps ==> Has(a, s) && Has(b, s)
    requires forall s :: s in steps ==> Below(a, s, pointer) == Below(b, s, pointer)
    ensures Under(a, steps, pointer, false) == Under(b, steps, pointer, false)
  {
    if steps != [] {
      assert Below(a, steps[0], pointer) == Below(b, steps[0], pointer);
      UnderAgrees(a, b, steps[1..], pointer);
    }
  }

  /**
   Of two documents that are the same up to the order of members, the insertion-ordered listings agree
   exactly when at every object the members that lead to scalars stand in the same order.
   */
  lemma {:induction false} ListingsAgreeIffSameOrder(a: Json, b: Json, pointer: string)
    requires WellFormed(a) && WellFormed(b) && Same(a, b)
    ensures Pointers(a, pointer, false) == Pointers(b, pointer, false) <==> SameOrder(a, b)
    decreases a
  {
    StepsAreTheMembers(a, false);
    StepsAreTheMembers(b, false);
    if !Scalar(a) {
      var sa, sb := Bearing(a, Steps(a, false)), Bearing(b, Steps(b, false));
      UnderBearing(a, Steps(a, false), pointer);
      UnderBearing(b, Steps(b, false), pointer);
      forall s | Has(a, s) || Has(b, s)
        ensures Has(a, s) && Has(b, s)
        ensures Below(a, s, pointer) == Below(b, s, pointer) <==> SameOrder(Child(a, s), Child(b, s))
        ensures !Bears(Child(a, s)) ==> SameOrder(Child(a, s), Child(b, s))
      {
        ChildDecides(a, b, s, pointer);
      }
      if Pointers(a, pointer, false) == Pointers(b, pointer, false) {
        Peel(a, b, sa, sb, pointer);
      } else if SameOrder(a, b) {
        UnderAgrees(a, b, sa, pointer);
      }
    }
  }

  lemma {:induction false} ChildDecides(a: Json, b: Json, s: Step, pointer: string)
    requires WellFormed(a) && WellFormed(b) && Same(a, b) && (Has(a, s) || Has(b, s))
    ensures Has(a, s) && Has(b, s)
    ensures Below(a, s, pointer) == Below(b, s, pointer) <==> SameOrder(Child(a, s), Child(b, s))
    ensures !Bears(Child(a, s)) ==> SameOrder(Child(a, s), Child(b, s))
    decreases a, 0
  {
    var at := pointer + "/" + Token(s);
    SameSteps(a, b, s);
    ListingsAgreeIffSameOrder(Child(a, s), Child(b, s), at);
    ListingIffBears(Child(a, s), at);
    ListingIffBears(Child(b, s), at);
  }

  // -- Declared fields ------------------------------------------------------

  /** A contract type, as far as order and shape go: a scalar, a record of declared fields, or a list. */
  datatype Schema =
    | Leaf
    | Record(names: seq<string>, fields: seq<Schema>)
    | ListOf(item: Schema)

  predicate Declared(t: Schema)
    decreases t
  {
    match t
    case Leaf => true
    case Record(names, fields) => |names| == |fields| && NoRepeat(names) && forall f :: f in fields ==> Declared(f)
    case ListOf(item) => Declared(item)
  }

  /** Validation by shape: every declared field there, none beside them. */
  predicate Fits(t: Schema, j: Json)
    requires Declared(t) && WellFormed(j)
    decreases t
  {
    match t
    case Leaf => Scalar(j)
    case Record(names, fields) =>
      && j.Object? && SetOf(j.keys) == SetOf(names)
      && forall i :: 0 <= i < |names| ==> Has(j, Key(names[i])) && Fits(fields[i], Child(j, Key(names[i])))
    case ListOf(item) =>
      j.Array? && forall i :: 0 <= i < |j.items| ==> Has(j, Index(i)) && Fits(item, Child(j, Index(i)))
  }

  /** The typed dump: fields in the order they are declared in, whatever order they came in. */
  function Typed(t: Schema, j: Json): (d: Json)
    requires Declared(t) && WellFormed(j) && Fits(t, j)
    ensures WellFormed(d)
    decreases t
  {
    match t
    case Leaf => j
    case Record(names, fields) =>
      Object(names, seq(|names|, i requires 0 <= i < |names| => Typed(fields[i], Child(j, Key(names[i])))))
    case ListOf(item) =>
      Array(seq(|j.items|, i requires 0 <= i < |j.items| => Typed(item, Child(j, Index(i)))))
  }

  lemma {:induction false} IndexOfField(keys: seq<string>, i: nat)
    requires NoRepeat(keys) && i < |keys|
    ensures keys[i] in keys && IndexOf(keys, keys[i]) == i
  {
    if i > 0 {
      IndexOfField(keys[1..], i - 1);
    }
  }

  /** The dump is the same document, only ordered. */
  lemma {:induction false} TypedIsTheSame(t: Schema, j: Json)
    requires Declared(t) && WellFormed(j) && Fits(t, j)
    ensures Same(j, Typed(t, j))
    decreases t
  {
    match t {
      case Leaf =>
      case Record(names, fields) =>
        KeysAsDeclared(names, j.keys);
        forall s | Has(j, s) && Has(Typed(t, j), s) ensures Same(Child(j, s), Child(Typed(t, j), s)) {
          var i := IndexOf(names, s.key);
          TypedIsTheSame(fields[i], Child(j, s));
        }
      case ListOf(item) =>
        forall s | Has(j, s) && Has(Typed(t, j), s) ensures Same(Child(j, s), Child(Typed(t, j), s)) {
          TypedIsTheSame(item, Child(j, s));
        }
    }
  }

  lemma KeysAsDeclared(names: seq<string>, keys: seq<string>)
    requires NoRepeat(names) && NoRepeat(keys) && SetOf(keys) == SetOf(names)
    ensures multiset(names) == multiset(keys)
  {
    forall x ensures x in names <==> x in keys {
      assert x in names <==> x in SetOf(names);
      assert x in keys <==> x in SetOf(keys);
    }
    NoRepeatPermutation(names, keys);
  }

  /** Validation does not see member order, and the dump forgets it. */
  lemma {:induction false} TypedForgetsOrder(t: Schema, a: Json, b: Json)
    requires Declared(t) && WellFormed(a) && WellFormed(b) && Same(a, b)
    ensures Fits(t, a) <==> Fits(t, b)
    ensures Fits(t, a) ==> Typed(t, a) == Typed(t, b)
    decreases t
  {
    match t {
      case Leaf =>
      case Record(names, fields) =>
        if a.Object? {
          SameKeys(a.keys, b.keys);
          forall i | 0 <= i < |names| && Has(a, Key(names[i]))
            ensures Fits(fields[i], Child(a, Key(names[i]))) <==> Fits(fields[i], Child(b, Key(names[i])))
            ensures Fits(fields[i], Child(a, Key(names[i]))) ==>
                      Typed(fields[i], Child(a, Key(names[i]))) == Typed(fields[i], Child(b, Key(names[i])))
          {
            TypedForgetsOrder(fields[i], Child(a, Key(names[i])), Child(b, Key(names[i])));
          }
        }
      case ListOf(item) =>
        if a.Array? {
          forall i | 0 <= i < |a.items|
            ensures Fits(item, Child(a, Index(i))) <==> Fits(item, Child(b, Index(i)))
            ensures Fits(item, Child(a, Index(i))) ==>
                      Typed(item, Child(a, Index(i))) == Typed(item, Child(b, Index(i)))
          {
            TypedForgetsOrder(item, Child(a, Index(i)), Child(b, Index(i)));
          }
        }
    }
  }

  lemma SameKeys(a: seq<string>, b: seq<string>)
    requires multiset(a) == multiset(b)
    ensures SetOf(a) == SetOf(b) && forall x :: x in a <==> x in b
  {
    forall x ensures x in a <==> x in b {
      assert x in multiset(a) <==> x in multiset(b);
    }
  }

  /** The listings of the fields of a record, in the order they are declared in, from the `k`-th on. */
  function FieldByField(t: Schema, j: Json, pointer: string, k: nat): seq<string>
    requires t.Record? && Declared(t) && WellFormed(j) && Fits(t, j) && k <= |t.names|
    decreases |t.names| - k
  {
    if k == |t.names| then []
    else
      Pointers(Typed(t.fields[k], Child(j, Key(t.names[k]))), pointer + "/" + EscapeToken(t.names[k]), false)
      + FieldByField(t, j, pointer, k + 1)
  }

  /** Whatever order they came in, a record's fields are listed in declared order. */
  lemma ListedInDeclaredOrder(t: Schema, j: Json, pointer: string)
    requires t.Record? && Declared(t) && WellFormed(j) && Fits(t, j)
    ensures Pointers(Typed(t, j), pointer, false) == FieldByField(t, j, pointer, 0)
  {
    var dump := Typed(t, j);
    StepsAreTheMembers(dump, false);
    assert Steps(dump, false)[0..] == Steps(dump, false);
    ListedFromField(t, j, pointer, 0);
  }

  lemma {:induction false} ListedFromField(t: Schema, j: Json, pointer: string, k: nat)
    requires t.Record? && Declared(t) && WellFormed(j) && Fits(t, j) && k <= |t.names|
    ensures |Steps(Typed(t, j), false)| == |t.names|
    ensures forall s :: s in Steps(Typed(t, j), false)[k..] ==> Has(Typed(t, j), s)
    ensures Under(Typed(t, j), Steps(Typed(t, j), false)[k..], pointer, false) == FieldByField(t, j, pointer, k)
    decreases |t.names| - k
  {
    var dump := Typed(t, j);
    var steps := Steps(dump, false)[k..];
    StepsAreTheMembers(dump, false);
    if k < |t.names| {
      ListedFromField(t, j, pointer, k + 1);
      assert steps[1..] == Steps(dump, false)[k + 1..];
      assert steps[0] == Key(t.names[k]);
      IndexOfField(t.names, k);
      assert Child(dump, steps[0]) == Typed(t.fields[k], Child(j, Key(t.names[k])));
    }
  }

  /** Of documents that are the same, the listing of one holds exactly the leaves of the other. */
  lemma ListsTheSameLeaves(a: Json, b: Json, pointer: string, x: string)
    requires WellFormed(a) && WellFormed(b) && Same(a, b)
    ensures x in Pointers(b, pointer, false) <==> exists path :: IsLeaf(a, path) && x == pointer + Spell(path)
  {
    ListsExactlyTheLeaves(b, pointer, false, x);
    forall path ensures IsLeaf(a, path) <==> IsLeaf(b, path) {
      SameLeaf(a, b, path);
    }
  }

  /** So the listing of the dump holds every leaf of the document once, and nothing else. */
  lemma DeclaredListing(t: Schema, j: Json, pointer: string, x: string)
    requires Declared(t) && WellFormed(j) && Fits(t, j)
    ensures NoRepeat(Pointers(Typed(t, j), pointer, false))
    ensures x in Pointers(Typed(t, j), pointer, false) <==> exists path :: IsLeaf(j, path) && x == pointer + Spell(path)
  {
    TypedIsTheSame(t, j);
    ListsEachLeafOnce(Typed(t, j), pointer, false);
    ListsTheSameLeaves(j, Typed(t, j), pointer, x);
  }
}
