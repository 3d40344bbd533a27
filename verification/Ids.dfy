/** Failure-carrying results shared by every component. */
module Results {
  datatype Option<+T> = None | Some(value: T)

  datatype Result<+T, +E> = Ok(value: T) | Err(error: E)
}

/** Provider identities, their order and the qualified host form. */
module Ids {
  import opened Results

  datatype Id = Id(text: string)

  const MAX_PROVIDER_ID_BYTES := 128
  const HOST_PROVIDER_SUFFIX := ":host"

  /** The byte order of ordered maps and sets keyed by ASCII strings. */
  predicate TextLess(a: string, b: string) {
    if b == [] then false
    else if a == [] then true
    else a[0] < b[0] || (a[0] == b[0] && TextLess(a[1..], b[1..]))
  }

  lemma {:induction false} TextIrreflexive(a: string)
    ensures !TextLess(a, a)
  {
    if a != [] { TextIrreflexive(a[1..]); }
  }

  lemma {:induction false} TextTransitive(a: string, b: string, c: string)
    requires TextLess(a, b) && TextLess(b, c)
    ensures TextLess(a, c)
  {
    if a != [] && a[0] == b[0] == c[0] { TextTransitive(a[1..], b[1..], c[1..]); }
  }

  lemma {:induction false} TextTotal(a: string, b: string)
    ensures a == b || TextLess(a, b) || TextLess(b, a)
  {
    if a == [] || b == [] || a[0] != b[0] {
    } else {
      TextTotal(a[1..], b[1..]);
      if a[1..] == b[1..] { assert a == [a[0]] + a[1..] && b == [b[0]] + b[1..]; }
    }
  }

  /** One text comes first exactly if it is a proper prefix, or less where the two first differ. */
  lemma {:induction false} TextLessIsByteOrder(a: string, b: string)
    ensures TextLess(a, b) <==>
              exists k :: && 0 <= k <= |a| && k < |b| && a[..k] == b[..k] && (k == |a| || a[k] < b[k])
  {
    if b != [] && a != [] {
      TextLessIsByteOrder(a[1..], b[1..]);
      if TextLess(a, b) {
        if a[0] < b[0] {
          assert a[..0] == b[..0];
        } else {
          var k :| && 0 <= k <= |a[1..]| && k < |b[1..]| && a[1..][..k] == b[1..][..k] && (k == |a[1..]| || a[1..][k] < b[1..][k]);
          assert a[..k + 1] == [a[0]] + a[1..][..k] && b[..k + 1] == [b[0]] + b[1..][..k];
        }
      }
      if k :| && 0 <= k <= |a| && k < |b| && a[..k] == b[..k] && (k == |a| || a[k] < b[k]) {
        if k > 0 {
          assert a[..k][0] == b[..k][0] && a[1..][..k - 1] == a[..k][1..] && b[1..][..k - 1] == b[..k][1..];
        }
      }
    } else if b != [] {
      assert a[..0] == b[..0];
    }
  }

  predicate Less(a: Id, b: Id) {
    TextLess(a.text, b.text)
  }

  /** A strict total order. */
  lemma LessOrder(a: Id, b: Id, c: Id)
    ensures !Less(a, a)
    ensures a == b || Less(a, b) || Less(b, a)
    ensures Less(a, b) && Less(b, c) ==> Less(a, c)
  {
    TextIrreflexive(a.text);
    TextTotal(a.text, b.text);
    if Less(a, b) && Less(b, c) { TextTransitive(a.text, b.text, c.text); }
  }

  predicate IsLeast(x: Id, s: set<Id>) {
    x in s && forall y | y in s :: y == x || Less(x, y)
  }

  lemma {:induction false} LeastExists(s: set<Id>)
    requires s != {}
    ensures exists x :: IsLeast(x, s)
  {
    var y :| y in s;
    if s == {y} {
      assert IsLeast(y, s);
    } else {
      var rest := s - {y};
      assert rest != {};
      LeastExists(rest);
      var x :| IsLeast(x, rest);
      LessOrder(x, y, y);
      if Less(y, x) {
        forall z | z in s ensures z == y || Less(y, z) {
          if z != y && z != x { LessOrder(y, x, z); }
        }
        assert IsLeast(y, s);
      } else {
        assert IsLeast(x, s);
      }
    }
  }

  /** Ordered iteration: the least remaining element. */
  method PickLeast(s: set<Id>) returns (x: Id)
    requires s != {}
    ensures IsLeast(x, s)
  {
    LeastExists(s);
    x :| x in s && IsLeast(x, s);
  }

  predicate SegmentByte(c: char) {
    'a' <= c <= 'z' || '0' <= c <= '9' || c == '-'
  }

  /** Dot-separated, nonempty segments of lower-case letters, digits and hyphens. */
  predicate ValidUnqualifiedText(t: string) {
    && 0 < |t| <= MAX_PROVIDER_ID_BYTES
    && (forall i | 0 <= i < |t| :: SegmentByte(t[i]) || t[i] == '.')
    && t[0] != '.' && t[|t| - 1] != '.'
    && (forall i | 0 <= i < |t| - 1 :: t[i] == '.' ==> t[i + 1] != '.')
  }

  predicate ValidUnqualified(id: Id) {
    ValidUnqualifiedText(id.text)
  }

  function HostId(plugin: Id): Id {
    Id(plugin.text + HOST_PROVIDER_SUFFIX)
  }

  /** The plugin a qualified host owner belongs to, if it is one. */
  function HostPluginId(provider: Id): (r: Option<Id>)
    ensures r.Some? ==> ValidUnqualified(r.value) && provider == HostId(r.value)
  {
    var t := provider.text;
    if |t| >= 5 && t[|t| - 5..] == HOST_PROVIDER_SUFFIX && ValidUnqualifiedText(t[..|t| - 5])
    then Some(Id(t[..|t| - 5]))
    else None
  }

  predicate ValidProviderId(provider: Id) {
    ValidUnqualified(provider) || HostPluginId(provider).Some?
  }

  /** Qualifying is injective. */
  lemma HostIdInjective(a: Id, b: Id)
    ensures HostId(a) == HostId(b) ==> a == b
  {
    assert HostId(a).text[..|HostId(a).text| - 5] == a.text;
    assert HostId(b).text[..|HostId(b).text| - 5] == b.text;
  }

  /** A qualified owner never meets a plain id. */
  lemma HostIdIsQualified(a: Id)
    ensures !ValidUnqualified(HostId(a))
  {
    assert HostId(a).text[|a.text|] == ':';
  }

  /** Qualifying is undone by `HostPluginId` and moves an id up in the order. */
  lemma HostIdFacts(plugin: Id)
    requires ValidUnqualified(plugin)
    ensures HostPluginId(HostId(plugin)) == Some(plugin)
    ensures HostPluginId(plugin) == None
    ensures Less(plugin, HostId(plugin))
  {
    var h := HostId(plugin).text;
    assert h[|h| - 5..] == HOST_PROVIDER_SUFFIX;
    assert h[..|h| - 5] == plugin.text;
    match HostPluginId(plugin)
    case Some(other) => HostIdIsQualified(other);
    case None =>
    ProperPrefixIsLess(plugin.text, HOST_PROVIDER_SUFFIX);
  }

  lemma {:induction false} ProperPrefixIsLess(a: string, suffix: string)
    requires suffix != []
    ensures TextLess(a, a + suffix)
  {
    if a != [] {
      assert (a + suffix)[1..] == a[1..] + suffix;
      ProperPrefixIsLess(a[1..], suffix);
    }
  }
}
