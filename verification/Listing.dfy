/** Names of a directory in order, as Go sorts strings. */
module Listing {

  /** The string order: the first difference decides, a proper prefix is less. */
  predicate Less(a: string, b: string) {
    b != "" && (a == "" || a[0] < b[0] || (a[0] == b[0] && Less(a[1..], b[1..])))
  }

  /** The texts agree up to some point, where the first ends or has the smaller
      character. */
  predicate Before(a: string, b: string, k: nat) {
    && k < |b| && k <= |a| && a[..k] == b[..k]
    && (k == |a| || a[k] < b[k])
  }

  lemma AgreesAtFirst(a: string, b: string, k: nat)
    requires Before(a, b, k) && k > 0
    ensures a != "" && b != "" && a[0] == b[0]
    ensures Before(a[1..], b[1..], k - 1)
  {
    assert a[..k][0] == b[..k][0];
    assert a[1..][..k - 1] == a[..k][1..] && b[1..][..k - 1] == b[..k][1..];
  }

  lemma {:induction false} LessMeans(a: string, b: string)
    ensures Less(a, b) <==> exists k: nat :: Before(a, b, k)
  {
    if k: nat :| Before(a, b, k) && k > 0 {
      AgreesAtFirst(a, b, k);
      LessMeans(a[1..], b[1..]);
    } else if Less(a, b) && a != "" && a[0] == b[0] {
      LessMeans(a[1..], b[1..]);
      var k: nat :| Before(a[1..], b[1..], k);
      assert a[..k + 1] == [a[0]] + a[1..][..k] && b[..k + 1] == [b[0]] + b[1..][..k];
      assert Before(a, b, k + 1);
    } else if Less(a, b) {
      assert Before(a, b, 0);
    }
  }

  lemma {:induction false} LessTotal(a: string, b: string)
    ensures a == b || Less(a, b) || Less(b, a)
  {
    if a != "" && b != "" {
      LessTotal(a[1..], b[1..]);
      assert a == [a[0]] + a[1..] && b == [b[0]] + b[1..];
    }
  }

  lemma {:induction false} LessTransitive(a: string, b: string, c: string)
    requires Less(a, b) && Less(b, c)
    ensures Less(a, c)
  {
    if a != "" && a[0] == b[0] == c[0] {
      LessTransitive(a[1..], b[1..], c[1..]);
    }
  }

  lemma {:induction false} LessIrreflexive(a: string)
    ensures !Less(a, a)
  {
    if a != "" {
      LessIrreflexive(a[1..]);
    }
  }

  predicate Ascending(names: seq<string>) {
    forall j, k | 0 <= j < k < |names| :: Less(names[j], names[k])
  }

  /** Every name once, in order. */
  ghost predicate ListingOf(listing: seq<string>, names: set<string>) {
    Ascending(listing) && forall n :: n in listing <==> n in names
  }

  lemma EmptyListing(a: seq<string>, names: set<string>)
    requires ListingOf(a, names)
    ensures a == [] <==> names == {}
  {
    if a != [] {
      assert a[0] in names;
    } else {
      assert forall n :: n !in names;
    }
  }

  /** There is only one such listing. */
  lemma {:induction false} ListingUnique(a: seq<string>, b: seq<string>, names: set<string>)
    requires ListingOf(a, names) && ListingOf(b, names)
    ensures a == b
  {
    EmptyListing(a, names);
    EmptyListing(b, names);
    if names != {} {
      FirstIsLeast(a, b, names);
      FirstIsLeast(b, a, names);
      LessIrreflexive(a[0]);
      if Less(a[0], b[0]) && Less(b[0], a[0]) {
        LessTransitive(a[0], b[0], a[0]);
      }
      assert a[0] == b[0];
      TailListing(a, names);
      TailListing(b, names);
      ListingUnique(a[1..], b[1..], names - {a[0]});
      assert a == [a[0]] + a[1..] && b == [b[0]] + b[1..];
    }
  }

  lemma FirstIsLeast(a: seq<string>, b: seq<string>, names: set<string>)
    requires ListingOf(a, names) && ListingOf(b, names) && a != [] && b != []
    ensures a[0] == b[0] || Less(a[0], b[0])
  {
    assert b[0] in names;
    var k :| 0 <= k < |a| && a[k] == b[0];
  }

  lemma TailListing(a: seq<string>, names: set<string>)
    requires ListingOf(a, names) && a != []
    ensures ListingOf(a[1..], names - {a[0]})
  {
    assert a == [a[0]] + a[1..];
    forall n ensures n in a[1..] <==> n in names - {a[0]} {
      if n in a[1..] {
        var k :| 0 <= k < |a[1..]| && a[1..][k] == n;
        assert a[k + 1] == n && Less(a[0], a[k + 1]);
        LessIrreflexive(n);
        assert n in a;
      }
    }
  }

  /** One more name at its place. */
  method Insert(listing: seq<string>, n: string, ghost names: set<string>) returns (r: seq<string>)
    requires ListingOf(listing, names) && n !in names
    ensures ListingOf(r, names + {n})
  {
    var i := 0;
    while i < |listing| && Less(listing[i], n)
      invariant i <= |listing| && forall j | 0 <= j < i :: Less(listing[j], n)
    {
      i := i + 1;
    }
    r := listing[..i] + [n] + listing[i..];
    forall j | i <= j < |listing| ensures Less(n, listing[j]) {
      LessTotal(listing[i], n);
      assert listing[i] in listing;
      if j > i {
        LessTransitive(n, listing[i], listing[j]);
      }
    }
    assert forall x :: x in r <==> x in listing || x == n;
  }

  /** The names in order. */
  method InOrder(names: set<string>) returns (r: seq<string>)
    ensures ListingOf(r, names)
  {
    r := [];
    var left := names;
    while left != {}
      invariant left <= names && ListingOf(r, names - left)
      decreases |left|
    {
      var n :| n in left;
      r := Insert(r, n, names - left);
      assert names - left + {n} == names - (left - {n});
      left := left - {n};
    }
    assert names - left == names;
  }
}
