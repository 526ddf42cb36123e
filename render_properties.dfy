/**
 * What `HalModelSerializer.to_representation` guarantees about the document
 * it builds: where every link, contributed title, embedded child and plain
 * attribute ends up, when the call raises, and in which order keys appear.
 * The statements are about the specification functions of HalSerializers;
 * the serializer's method is proved equal to them.
 */
module RenderProperties {
  import opened Json
  import opened HalSerializers

  // ---------------------------------------------------------------------
  // Vocabulary
  // ---------------------------------------------------------------------

  /** Contributor field names are distinct per target and are never link names. */
  predicate LinkConfig(names: seq<string>, titles: map<string, string>) {
    && NoDup(names)
    && (forall t | t in titles :: titles[t] !in names)
    && (forall t, u | t in titles && u in titles && t != u :: titles[t] != titles[u])
  }

  /** The buckets `get_fields` produces from fields with distinct names. */
  predicate WellFormedConfig(links: seq<string>, titles: map<string, string>, embedded: seq<string>) {
    && LinkConfig(links, titles)
    && NoDup(embedded)
    && (forall n | n in links :: n !in embedded)
    && (forall t | t in titles :: titles[t] !in embedded)
  }

  /** The contributor fields that `to_representation` pops: those of non-null links. */
  function ConsumedNames(names: seq<string>, titles: map<string, string>, ret: Entries): seq<string>
    decreases |names|
  {
    if names == [] then []
    else
      (if names[0] in titles && Get(ret, names[0]) != Some(JNull) then [titles[names[0]]] else [])
      + ConsumedNames(names[1..], titles, ret)
  }

  /** The link names whose value is not None, in order. */
  function NonNullLinks(names: seq<string>, ret: Entries): seq<string>
    decreases |names|
  {
    if names == [] then []
    else (if Get(ret, names[0]) == Some(JNull) then [] else [names[0]]) + NonNullLinks(names[1..], ret)
  }

  /** The embedded names whose self link is truthy, in order. */
  function Promoted(names: seq<string>, ret: Entries): seq<string>
    decreases |names|
  {
    if names == [] then []
    else
      (if names[0] in Keys(ret) && Truthy(EmbedSelf(Lookup(ret, names[0]))) then [names[0]] else [])
      + Promoted(names[1..], ret)
  }

  /**
   * Link field n can be processed: its value is present and, when it is not
   * None and has a title contributor, the contributor's value is present and
   * the link is not a list.
   */
  predicate LinkReady(n: string, titles: map<string, string>, ret: Entries) {
    && n in Keys(ret)
    && (n in titles && !Lookup(ret, n).JNull? ==> titles[n] in Keys(ret) && !Lookup(ret, n).JList?)
  }

  predicate LinkRenderable(names: seq<string>, titles: map<string, string>, ret: Entries) {
    forall n | n in names :: LinkReady(n, titles, ret)
  }

  /** `resp` only has the two sections, each a non-empty dict with distinct keys. */
  predicate Sectioned(resp: Entries) {
    && UniqueKeys(resp)
    && forall s | s in Keys(resp) ::
         && (s == LinksFieldName || s == EmbeddedFieldName)
         && Get(resp, s) == Some(JObj(Section(resp, s)))
         && Section(resp, s) != []
         && UniqueKeys(Section(resp, s))
  }

  // ---------------------------------------------------------------------
  // Congruences: the vocabulary only looks at the names' own values
  // ---------------------------------------------------------------------

  lemma {:induction false} ConsumedNamesCongruent(names: seq<string>, titles: map<string, string>, a: Entries, b: Entries)
    requires forall n | n in names :: Get(a, n) == Get(b, n)
    ensures ConsumedNames(names, titles, a) == ConsumedNames(names, titles, b)
    decreases |names|
  {
    if names != [] { ConsumedNamesCongruent(names[1..], titles, a, b); }
  }

  lemma {:induction false} NonNullLinksCongruent(names: seq<string>, a: Entries, b: Entries)
    requires forall n | n in names :: Get(a, n) == Get(b, n)
    ensures NonNullLinks(names, a) == NonNullLinks(names, b)
    decreases |names|
  {
    if names != [] { NonNullLinksCongruent(names[1..], a, b); }
  }

  lemma {:induction false} PromotedCongruent(names: seq<string>, a: Entries, b: Entries)
    requires forall n | n in names :: Get(a, n) == Get(b, n)
    ensures Promoted(names, a) == Promoted(names, b)
    decreases |names|
  {
    if names != [] { PromotedCongruent(names[1..], a, b); }
  }

  lemma {:induction false} PromotedWithin(names: seq<string>, ret: Entries)
    ensures forall n | n in Promoted(names, ret) :: n in names
    decreases |names|
  {
    if names != [] { PromotedWithin(names[1..], ret); }
  }

  lemma {:induction false} ConsumedAreContributors(names: seq<string>, titles: map<string, string>, ret: Entries, k: string)
    requires k in ConsumedNames(names, titles, ret)
    ensures exists t | t in names && t in titles :: Get(ret, t) != Some(JNull) && titles[t] == k
    decreases |names|
  {
    if !(names[0] in titles && Get(ret, names[0]) != Some(JNull) && titles[names[0]] == k) {
      ConsumedAreContributors(names[1..], titles, ret, k);
    }
  }

  lemma LinkConfigTail(names: seq<string>, titles: map<string, string>)
    requires LinkConfig(names, titles) && names != []
    ensures LinkConfig(names[1..], titles) && names[0] !in names[1..]
  {
    assert names == [names[0]] + names[1..];
    NoDupCons(names[0], names[1..]);
  }

  lemma PutInSectioned(resp: Entries, s: string, k: string, v: Json)
    requires Sectioned(resp)
    requires s == LinksFieldName || s == EmbeddedFieldName
    ensures Sectioned(PutIn(resp, s, k, v))
  {
    var r := PutIn(resp, s, k, v);
    assert Get(r, s) == Some(JObj(Put(Section(resp, s), k, v)));
    forall t | t in Keys(r)
      ensures && (t == LinksFieldName || t == EmbeddedFieldName)
              && Get(r, t) == Some(JObj(Section(r, t)))
              && Section(r, t) != []
              && UniqueKeys(Section(r, t))
    {
      if t != s {
        assert Get(r, t) == Get(resp, t);
      } else {
        assert k in Keys(Section(r, t));
        if s in Keys(resp) {
          assert UniqueKeys(Section(resp, s));
        } else {
          assert Section(resp, s) == [];
        }
      }
    }
  }

  // ---------------------------------------------------------------------
  // The loop over link fields
  // ---------------------------------------------------------------------

  /** What one link step touches: `_links` at n, the popped n and contributor, nothing else. */
  lemma LinkStepFrame(n: string, titles: map<string, string>, resp: Entries, ret: Entries)
    requires LinkStep(n, titles, resp, ret).Ok?
    ensures var out := LinkStep(n, titles, resp, ret).value;
      && n in Keys(ret)
      && (forall s | s != LinksFieldName :: Get(out.0, s) == Get(resp, s))
      && (forall k | k != n :: Get(Section(out.0, LinksFieldName), k) == Get(Section(resp, LinksFieldName), k))
      && n !in Keys(out.1)
      && (forall k | k in Keys(out.1) :: k in Keys(ret))
      && (UniqueKeys(ret) ==> UniqueKeys(out.1))
      && (Sectioned(resp) ==> Sectioned(out.0))
  {
    var v := Lookup(ret, n);
    var rest := Remove(ret, n);
    if !v.JNull? && Sectioned(resp) {
      var link := BuildLinkObject(v);
      if n !in titles {
        PutInSectioned(resp, LinksFieldName, n, link);
      } else {
        var titled := WithTitle(n, link, Lookup(rest, titles[n])).value;
        PutInSectioned(resp, LinksFieldName, n, titled);
      }
    }
  }

  lemma {:induction false} LinkPhaseFrame(names: seq<string>, titles: map<string, string>, resp: Entries, ret: Entries)
    requires LinkPhase(names, titles, resp, ret).Ok?
    ensures var out := LinkPhase(names, titles, resp, ret).value;
      && (forall s | s != LinksFieldName :: Get(out.0, s) == Get(resp, s))
      && (forall k | k !in names :: Get(Section(out.0, LinksFieldName), k) == Get(Section(resp, LinksFieldName), k))
      && (forall k | k in names :: k !in Keys(out.1))
      && (forall k | k in Keys(out.1) :: k in Keys(ret))
      && (UniqueKeys(ret) ==> UniqueKeys(out.1))
      && (Sectioned(resp) ==> Sectioned(out.0))
    decreases |names|
  {
    if names != [] {
      var step := LinkStep(names[0], titles, resp, ret).value;
      LinkStepFrame(names[0], titles, resp, ret);
      LinkPhaseFrame(names[1..], titles, step.0, step.1);
    }
  }

  /** A link step leaves the values of other link fields and of other contributors alone. */
  lemma LinkStepKeeps(n: string, titles: map<string, string>, resp: Entries, ret: Entries, k: string)
    requires LinkStep(n, titles, resp, ret).Ok?
    requires k != n
    requires !(n in titles && Get(ret, n) != Some(JNull) && titles[n] == k)
    ensures Get(LinkStep(n, titles, resp, ret).value.1, k) == Get(ret, k)
  {
  }

  lemma {:induction false} LinkPhaseKeepsRet(names: seq<string>, titles: map<string, string>, resp: Entries, ret: Entries)
    requires LinkConfig(names, titles)
    requires LinkPhase(names, titles, resp, ret).Ok?
    ensures var out := LinkPhase(names, titles, resp, ret).value;
      && (forall k | k !in names && k !in ConsumedNames(names, titles, ret) :: Get(out.1, k) == Get(ret, k))
      && (forall k | k in ConsumedNames(names, titles, ret) :: k !in Keys(out.1))
    decreases |names|
  {
    if names != [] {
      var m := names[0];
      var rest := names[1..];
      var step := LinkStep(m, titles, resp, ret).value;
      var out := LinkPhase(names, titles, resp, ret).value;
      assert out == LinkPhase(rest, titles, step.0, step.1).value;
      LinkConfigTail(names, titles);
      var head := if m in titles && Get(ret, m) != Some(JNull) then [titles[m]] else [];
      assert ConsumedNames(names, titles, ret) == head + ConsumedNames(rest, titles, step.1) by {
        forall t | t in rest ensures Get(step.1, t) == Get(ret, t) {
          LinkStepKeeps(m, titles, resp, ret, t);
        }
        ConsumedNamesCongruent(rest, titles, step.1, ret);
      }
      LinkPhaseKeepsRet(rest, titles, step.0, step.1);
      forall k | k !in names && k !in ConsumedNames(names, titles, ret)
        ensures Get(out.1, k) == Get(ret, k)
      {
        LinkStepKeeps(m, titles, resp, ret, k);
      }
      forall k | k in ConsumedNames(names, titles, ret) ensures k !in Keys(out.1) {
        if k in head {
          assert k !in Keys(step.1);
          LinkPhaseFrame(rest, titles, step.0, step.1);
        }
      }
    }
  }

  /** A link step pops its own name and, for a non-None titled link, its contributor; the other keys keep their order. */
  lemma LinkStepKeyOrder(n: string, titles: map<string, string>, resp: Entries, ret: Entries)
    requires LinkStep(n, titles, resp, ret).Ok?
    ensures Keys(LinkStep(n, titles, resp, ret).value.1)
         == Without(Keys(ret), [n] + (if n in titles && Get(ret, n) != Some(JNull) then [titles[n]] else []))
  {
    RemoveKeyOrder(ret, n);
    if n in titles && Get(ret, n) != Some(JNull) {
      RemoveKeyOrder(Remove(ret, n), titles[n]);
      WithoutWithout(Keys(ret), [n], [titles[n]]);
    } else {
      assert [n] + [] == [n];
    }
  }

  /** A link step leaves the later links' contributors as they were. */
  lemma ConsumedAfterLinkStep(names: seq<string>, titles: map<string, string>, resp: Entries, ret: Entries)
    requires LinkConfig(names, titles) && names != []
    requires LinkStep(names[0], titles, resp, ret).Ok?
    ensures ConsumedNames(names[1..], titles, LinkStep(names[0], titles, resp, ret).value.1)
         == ConsumedNames(names[1..], titles, ret)
  {
    var step := LinkStep(names[0], titles, resp, ret).value;
    LinkConfigTail(names, titles);
    forall t | t in names[1..] ensures Get(step.1, t) == Get(ret, t) {
      LinkStepKeeps(names[0], titles, resp, ret, t);
    }
    ConsumedNamesCongruent(names[1..], titles, step.1, ret);
  }

  /** Dropping m and head, then rest and later, drops m, rest, head and later. */
  lemma WithoutInTwoSteps(ks: seq<string>, m: string, head: seq<string>, rest: seq<string>, later: seq<string>)
    ensures Without(Without(ks, [m] + head), rest + later) == Without(ks, [m] + rest + (head + later))
  {
    WithoutWithout(ks, [m] + head, rest + later);
    WithoutSameNames(ks, [m] + head + (rest + later), [m] + rest + (head + later));
  }

  /**
   * The link loop leaves DRF's keys in their order, less the link names and
   * the contributors it consumed.
   */
  lemma {:induction false} LinkPhaseKeyOrder(names: seq<string>, titles: map<string, string>, resp: Entries, ret: Entries)
    requires LinkConfig(names, titles)
    requires LinkPhase(names, titles, resp, ret).Ok?
    ensures Keys(LinkPhase(names, titles, resp, ret).value.1)
         == Without(Keys(ret), names + ConsumedNames(names, titles, ret))
    decreases |names|
  {
    if names == [] {
      assert names + ConsumedNames(names, titles, ret) == [];
      WithoutNothing(Keys(ret));
    } else {
      var m := names[0];
      var rest := names[1..];
      var step := LinkStep(m, titles, resp, ret).value;
      var head := if m in titles && Get(ret, m) != Some(JNull) then [titles[m]] else [];
      var later := ConsumedNames(rest, titles, ret);
      var tail := LinkPhase(rest, titles, step.0, step.1);
      assert LinkPhase(names, titles, resp, ret) == tail;
      assert Keys(tail.value.1) == Without(Keys(step.1), rest + later) by {
        ConsumedAfterLinkStep(names, titles, resp, ret);
        LinkConfigTail(names, titles);
        LinkPhaseKeyOrder(rest, titles, step.0, step.1);
      }
      assert Keys(step.1) == Without(Keys(ret), [m] + head) by { LinkStepKeyOrder(m, titles, resp, ret); }
      assert names + ConsumedNames(names, titles, ret) == [m] + rest + (head + later) by {
        assert names == [m] + rest;
      }
      WithoutInTwoSteps(Keys(ret), m, head, rest, later);
    }
  }

  /** The values that a link step for n reads are the ones the phase started with. */
  lemma {:induction false} LinkPhaseWrites(names: seq<string>, titles: map<string, string>, resp: Entries, ret: Entries, n: string)
    requires LinkConfig(names, titles)
    requires LinkPhase(names, titles, resp, ret).Ok?
    requires n in names
    ensures n in Keys(ret)
    ensures var links := Section(LinkPhase(names, titles, resp, ret).value.0, LinksFieldName);
      var v := Lookup(ret, n);
      && (v.JNull? ==> Get(links, n) == Get(Section(resp, LinksFieldName), n))
      && (!v.JNull? && n !in titles ==> Get(links, n) == Some(BuildLinkObject(v)))
      && (!v.JNull? && n in titles ==>
            && titles[n] in Keys(ret)
            && WithTitle(n, BuildLinkObject(v), Lookup(ret, titles[n])).Ok?
            && Get(links, n) == Some(WithTitle(n, BuildLinkObject(v), Lookup(ret, titles[n])).value))
    decreases |names|
  {
    var m := names[0];
    var rest := names[1..];
    var step := LinkStep(m, titles, resp, ret).value;
    LinkConfigTail(names, titles);
    LinkStepFrame(m, titles, resp, ret);
    if m == n {
      LinkPhaseFrame(rest, titles, step.0, step.1);
    } else {
      assert n in rest;
      LinkStepKeeps(m, titles, resp, ret, n);
      if n in titles {
        LinkStepKeeps(m, titles, resp, ret, titles[n]);
      }
      LinkPhaseWrites(rest, titles, step.0, step.1, n);
    }
  }

  lemma LinkStepSucceeds(n: string, titles: map<string, string>, resp: Entries, ret: Entries)
    requires n in titles ==> titles[n] != n
    ensures LinkStep(n, titles, resp, ret).Ok? <==> LinkReady(n, titles, ret)
  {
    if n in Keys(ret) && n in titles && !Lookup(ret, n).JNull? {
      assert Get(Remove(ret, n), titles[n]) == Get(ret, titles[n]);
    }
  }

  lemma {:induction false} LinkPhaseSucceeds(names: seq<string>, titles: map<string, string>, resp: Entries, ret: Entries)
    requires LinkConfig(names, titles)
    ensures LinkPhase(names, titles, resp, ret).Ok? <==> LinkRenderable(names, titles, ret)
    decreases |names|
  {
    if names != [] {
      var m := names[0];
      var rest := names[1..];
      LinkConfigTail(names, titles);
      assert LinkRenderable(names, titles, ret) <==> LinkReady(m, titles, ret) && LinkRenderable(rest, titles, ret) by {
        assert forall t | t in names :: t == m || t in rest;
      }
      LinkStepSucceeds(m, titles, resp, ret);
      if LinkStep(m, titles, resp, ret).Ok? {
        var step := LinkStep(m, titles, resp, ret).value;
        forall t | t in rest
          ensures LinkReady(t, titles, step.1) == LinkReady(t, titles, ret)
        {
          LinkStepKeeps(m, titles, resp, ret, t);
          if t in titles { LinkStepKeeps(m, titles, resp, ret, titles[t]); }
        }
        LinkPhaseSucceeds(rest, titles, step.0, step.1);
      }
    }
  }

  lemma {:induction false} ConsumedIncludes(names: seq<string>, titles: map<string, string>, ret: Entries, n: string)
    requires n in names && n in titles && Get(ret, n) != Some(JNull)
    ensures titles[n] in ConsumedNames(names, titles, ret)
    decreases |names|
  {
    if names[0] != n { ConsumedIncludes(names[1..], titles, ret, n); }
  }

  lemma {:induction false} NonNullLinksWithin(names: seq<string>, ret: Entries)
    ensures forall k | k in NonNullLinks(names, ret) :: k in names
    decreases |names|
  {
    if names != [] { NonNullLinksWithin(names[1..], ret); }
  }

  lemma LinkStepOrder(n: string, titles: map<string, string>, resp: Entries, ret: Entries)
    requires LinkStep(n, titles, resp, ret).Ok?
    requires n !in Keys(Section(resp, LinksFieldName))
    ensures n in Keys(ret)
    ensures Keys(Section(LinkStep(n, titles, resp, ret).value.0, LinksFieldName))
         == Keys(Section(resp, LinksFieldName)) + (if Lookup(ret, n).JNull? then [] else [n])
  {
    var v := Lookup(ret, n);
    if !v.JNull? {
      var link := BuildLinkObject(v);
      if n in titles {
        var titled := WithTitle(n, link, Lookup(Remove(ret, n), titles[n])).value;
        assert Section(LinkStep(n, titles, resp, ret).value.0, LinksFieldName)
            == Put(Section(resp, LinksFieldName), n, titled);
      }
    }
  }

  /** Link names are appended to `_links` in declaration order, skipping None values. */
  lemma {:induction false} LinkPhaseOrder(names: seq<string>, titles: map<string, string>, resp: Entries, ret: Entries)
    requires LinkConfig(names, titles)
    requires LinkPhase(names, titles, resp, ret).Ok?
    requires forall n | n in names :: n !in Keys(Section(resp, LinksFieldName))
    ensures Keys(Section(LinkPhase(names, titles, resp, ret).value.0, LinksFieldName))
         == Keys(Section(resp, LinksFieldName)) + NonNullLinks(names, ret)
    decreases |names|
  {
    if names != [] {
      var m := names[0];
      var rest := names[1..];
      var step := LinkStep(m, titles, resp, ret).value;
      var head := if Get(ret, m) == Some(JNull) then [] else [m];
      var before := Keys(Section(resp, LinksFieldName));
      var mid := Keys(Section(step.0, LinksFieldName));
      LinkConfigTail(names, titles);
      assert mid == before + head by {
        LinkStepOrder(m, titles, resp, ret);
      }
      assert NonNullLinks(rest, step.1) == NonNullLinks(rest, ret) by {
        forall t | t in rest ensures Get(step.1, t) == Get(ret, t) {
          LinkStepKeeps(m, titles, resp, ret, t);
        }
        NonNullLinksCongruent(rest, step.1, ret);
      }
      assert forall t | t in rest :: t !in mid;
      var out := LinkPhase(rest, titles, step.0, step.1);
      assert LinkPhase(names, titles, resp, ret) == out;
      LinkPhaseOrder(rest, titles, step.0, step.1);
      assert NonNullLinks(names, ret) == head + NonNullLinks(rest, ret);
      ConcatAssoc(before, head, NonNullLinks(rest, ret));
    }
  }

  // ---------------------------------------------------------------------
  // The loop over embedded fields
  // ---------------------------------------------------------------------

  /** An embedded step pops exactly its own name from `ret`, and raises when it is absent. */
  lemma EmbedStepRet(n: string, resp: Entries, ret: Entries)
    ensures EmbedStep(n, resp, ret).Ok? <==> n in Keys(ret)
    ensures EmbedStep(n, resp, ret).Ok? ==>
      var out := EmbedStep(n, resp, ret).value.1;
      && (forall k | k != n :: Get(out, k) == Get(ret, k))
      && n !in Keys(out)
      && (forall k | k in Keys(out) :: k in Keys(ret))
      && (UniqueKeys(ret) ==> UniqueKeys(out))
  {
  }

  /** An embedded step writes the child under `_embedded` and its truthy self link under `_links`. */
  lemma EmbedStepSections(n: string, resp: Entries, ret: Entries)
    requires n in Keys(ret)
    ensures var out := EmbedStep(n, resp, ret).value.0;
      var child := Lookup(ret, n);
      && Section(out, EmbeddedFieldName) == Put(Section(resp, EmbeddedFieldName), n, child)
      && Section(out, LinksFieldName)
         == (if Truthy(EmbedSelf(child)) then Put(Section(resp, LinksFieldName), n, EmbedSelf(child))
             else Section(resp, LinksFieldName))
      && (forall s | s != LinksFieldName && s != EmbeddedFieldName :: Get(out, s) == Get(resp, s))
  {
    var child := Lookup(ret, n);
    var self := EmbedSelf(child);
    var linked := if Truthy(self) then PutIn(resp, LinksFieldName, n, self) else resp;
    assert Section(linked, EmbeddedFieldName) == Section(resp, EmbeddedFieldName);
  }

  lemma EmbedStepSectioned(n: string, resp: Entries, ret: Entries)
    requires n in Keys(ret)
    requires Sectioned(resp)
    ensures Sectioned(EmbedStep(n, resp, ret).value.0)
  {
    var child := Lookup(ret, n);
    var self := EmbedSelf(child);
    var linked := if Truthy(self) then PutIn(resp, LinksFieldName, n, self) else resp;
    if Truthy(self) { PutInSectioned(resp, LinksFieldName, n, self); }
    PutInSectioned(linked, EmbeddedFieldName, n, child);
  }

  lemma {:induction false} EmbedPhaseSectionsFrame(names: seq<string>, resp: Entries, ret: Entries)
    requires EmbedPhase(names, resp, ret).Ok?
    ensures var out := EmbedPhase(names, resp, ret).value.0;
      && (forall s | s != LinksFieldName && s != EmbeddedFieldName :: Get(out, s) == Get(resp, s))
      && (forall k | k !in names :: Get(Section(out, LinksFieldName), k) == Get(Section(resp, LinksFieldName), k))
      && (forall k | k !in names :: Get(Section(out, EmbeddedFieldName), k) == Get(Section(resp, EmbeddedFieldName), k))
      && (Sectioned(resp) ==> Sectioned(out))
    decreases |names|
  {
    if names != [] {
      var step := EmbedStep(names[0], resp, ret).value;
      EmbedStepRet(names[0], resp, ret);
      EmbedStepSections(names[0], resp, ret);
      if Sectioned(resp) { EmbedStepSectioned(names[0], resp, ret); }
      EmbedPhaseSectionsFrame(names[1..], step.0, step.1);
    }
  }

  lemma {:induction false} EmbedPhaseRetFrame(names: seq<string>, resp: Entries, ret: Entries)
    requires EmbedPhase(names, resp, ret).Ok?
    ensures var out := EmbedPhase(names, resp, ret).value.1;
      && (forall k | k !in names :: Get(out, k) == Get(ret, k))
      && (forall k | k in names :: k !in Keys(out))
      && (forall k | k in Keys(out) :: k in Keys(ret))
      && (UniqueKeys(ret) ==> UniqueKeys(out))
    decreases |names|
  {
    if names != [] {
      var step := EmbedStep(names[0], resp, ret).value;
      EmbedStepRet(names[0], resp, ret);
      EmbedPhaseRetFrame(names[1..], step.0, step.1);
    }
  }

  /** The embedded loop leaves DRF's keys in their order, less the embedded names. */
  lemma {:induction false} EmbedPhaseKeyOrder(names: seq<string>, resp: Entries, ret: Entries)
    requires EmbedPhase(names, resp, ret).Ok?
    ensures Keys(EmbedPhase(names, resp, ret).value.1) == Without(Keys(ret), names)
    decreases |names|
  {
    if names == [] {
      WithoutNothing(Keys(ret));
    } else {
      var m := names[0];
      var rest := names[1..];
      var step := EmbedStep(m, resp, ret).value;
      var tail := EmbedPhase(rest, step.0, step.1);
      assert EmbedPhase(names, resp, ret) == tail;
      assert Keys(tail.value.1) == Without(Keys(step.1), rest) by { EmbedPhaseKeyOrder(rest, step.0, step.1); }
      assert Keys(step.1) == Without(Keys(ret), [m]) by { RemoveKeyOrder(ret, m); }
      WithoutHeadThenRest(Keys(ret), names, Keys(step.1), Keys(tail.value.1));
    }
  }

  /** Dropping the first name and then the others drops them all. */
  lemma WithoutHeadThenRest(ks: seq<string>, names: seq<string>, mid: seq<string>, fin: seq<string>)
    requires names != []
    requires mid == Without(ks, [names[0]]) && fin == Without(mid, names[1..])
    ensures fin == Without(ks, names)
  {
    WithoutWithout(ks, [names[0]], names[1..]);
    assert [names[0]] + names[1..] == names;
  }

  /** What the embedded loop touches: the two sections at its names, and its names in `ret`. */
  lemma EmbedPhaseFrame(names: seq<string>, resp: Entries, ret: Entries)
    requires EmbedPhase(names, resp, ret).Ok?
    ensures var out := EmbedPhase(names, resp, ret).value;
      && (forall s | s != LinksFieldName && s != EmbeddedFieldName :: Get(out.0, s) == Get(resp, s))
      && (forall k | k !in names :: Get(Section(out.0, LinksFieldName), k) == Get(Section(resp, LinksFieldName), k))
      && (forall k | k !in names :: Get(Section(out.0, EmbeddedFieldName), k) == Get(Section(resp, EmbeddedFieldName), k))
      && (forall k | k !in names :: Get(out.1, k) == Get(ret, k))
      && (forall k | k in names :: k !in Keys(out.1))
      && (forall k | k in Keys(out.1) :: k in Keys(ret))
      && (UniqueKeys(ret) ==> UniqueKeys(out.1))
      && (Sectioned(resp) ==> Sectioned(out.0))
  {
    EmbedPhaseSectionsFrame(names, resp, ret);
    EmbedPhaseRetFrame(names, resp, ret);
  }

  lemma {:induction false} EmbedPhaseWrites(names: seq<string>, resp: Entries, ret: Entries, n: string)
    requires NoDup(names)
    requires EmbedPhase(names, resp, ret).Ok?
    requires n in names
    ensures n in Keys(ret)
    ensures var out := EmbedPhase(names, resp, ret).value;
      var child := Lookup(ret, n);
      && Get(Section(out.0, EmbeddedFieldName), n) == Some(child)
      && Get(Section(out.0, LinksFieldName), n)
         == (if Truthy(EmbedSelf(child)) then Some(EmbedSelf(child)) else Get(Section(resp, LinksFieldName), n))
    decreases |names|
  {
    var m := names[0];
    var rest := names[1..];
    var step := EmbedStep(m, resp, ret).value;
    assert m in Keys(ret) by { EmbedStepRet(m, resp, ret); }
    NoDupTail(names);
    if m == n {
      EmbedStepSections(m, resp, ret);
      EmbedPhaseSectionsFrame(rest, step.0, step.1);
    } else {
      assert n in rest;
      assert Get(step.1, n) == Get(ret, n) by { EmbedStepRet(m, resp, ret); }
      assert Get(Section(step.0, LinksFieldName), n) == Get(Section(resp, LinksFieldName), n) by {
        EmbedStepSections(m, resp, ret);
      }
      EmbedPhaseWrites(rest, step.0, step.1, n);
    }
  }

  lemma {:induction false} EmbedPhaseSucceeds(names: seq<string>, resp: Entries, ret: Entries)
    requires NoDup(names)
    ensures EmbedPhase(names, resp, ret).Ok? <==> forall n | n in names :: n in Keys(ret)
    decreases |names|
  {
    if names != [] {
      var m := names[0];
      var rest := names[1..];
      assert names == [m] + rest;
      NoDupCons(m, rest);
      EmbedStepRet(m, resp, ret);
      if EmbedStep(m, resp, ret).Ok? {
        var step := EmbedStep(m, resp, ret).value;
        EmbedPhaseSucceeds(rest, step.0, step.1);
        forall t | t in rest ensures t in Keys(step.1) <==> t in Keys(ret) {
          assert Get(step.1, t) == Get(ret, t);
        }
      }
    }
  }

  /** One embedded step appends n to `_embedded`, and to `_links` when its self link is truthy. */
  lemma EmbedStepOrder(n: string, resp: Entries, ret: Entries)
    requires n in Keys(ret)
    ensures var out := EmbedStep(n, resp, ret).value;
      && (n !in Keys(Section(resp, LinksFieldName)) ==>
            Keys(Section(out.0, LinksFieldName))
            == Keys(Section(resp, LinksFieldName)) + (if Truthy(EmbedSelf(Lookup(ret, n))) then [n] else []))
      && (n !in Keys(Section(resp, EmbeddedFieldName)) ==>
            Keys(Section(out.0, EmbeddedFieldName)) == Keys(Section(resp, EmbeddedFieldName)) + [n])
  {
    EmbedStepSections(n, resp, ret);
  }

  /** One embedded step appends m to `_links` when it is promoted; the later names stay absent there. */
  lemma EmbedLinkKeysStep(m: string, rest: seq<string>, resp: Entries, ret: Entries)
    requires m in Keys(ret) && m !in rest
    requires m !in Keys(Section(resp, LinksFieldName))
    requires forall n | n in rest :: n !in Keys(Section(resp, LinksFieldName))
    ensures var out := EmbedStep(m, resp, ret).value.0;
      var head := if Truthy(EmbedSelf(Lookup(ret, m))) then [m] else [];
      && Keys(Section(out, LinksFieldName)) == Keys(Section(resp, LinksFieldName)) + head
      && (forall n | n in rest :: n !in Keys(Section(out, LinksFieldName)))
  {
    EmbedStepOrder(m, resp, ret);
  }

  /** Popping an embedded name does not change which later names are promoted. */
  lemma PromotedStep(m: string, rest: seq<string>, resp: Entries, ret: Entries)
    requires m in Keys(ret) && m !in rest
    ensures var head := if Truthy(EmbedSelf(Lookup(ret, m))) then [m] else [];
      Promoted([m] + rest, ret) == head + Promoted(rest, EmbedStep(m, resp, ret).value.1)
  {
    assert ([m] + rest)[1..] == rest;
    EmbedStepRet(m, resp, ret);
    PromotedCongruent(rest, EmbedStep(m, resp, ret).value.1, ret);
  }

  lemma {:induction false} EmbedPhaseLinkOrder(names: seq<string>, resp: Entries, ret: Entries)
    requires NoDup(names)
    requires EmbedPhase(names, resp, ret).Ok?
    requires forall n | n in names :: n !in Keys(Section(resp, LinksFieldName))
    ensures Keys(Section(EmbedPhase(names, resp, ret).value.0, LinksFieldName))
         == Keys(Section(resp, LinksFieldName)) + Promoted(names, ret)
    decreases |names|
  {
    if names != [] {
      var m := names[0];
      var rest := names[1..];
      var step := EmbedStep(m, resp, ret).value;
      assert m in Keys(ret) by { EmbedStepRet(m, resp, ret); }
      var head := if Truthy(EmbedSelf(Lookup(ret, m))) then [m] else [];
      NoDupTail(names);
      assert names == [m] + rest;
      EmbedLinkKeysStep(m, rest, resp, ret);
      PromotedStep(m, rest, resp, ret);
      EmbedPhaseLinkOrder(rest, step.0, step.1);
      ConcatAssoc(Keys(Section(resp, LinksFieldName)), head, Promoted(rest, step.1));
    }
  }

  /** One embedded step appends m to `_embedded`; the later names stay absent there. */
  lemma EmbedEmbeddedKeysStep(m: string, rest: seq<string>, resp: Entries, ret: Entries)
    requires m in Keys(ret) && m !in rest
    requires m !in Keys(Section(resp, EmbeddedFieldName))
    requires forall n | n in rest :: n !in Keys(Section(resp, EmbeddedFieldName))
    ensures var out := EmbedStep(m, resp, ret).value.0;
      && Keys(Section(out, EmbeddedFieldName)) == Keys(Section(resp, EmbeddedFieldName)) + [m]
      && (forall n | n in rest :: n !in Keys(Section(out, EmbeddedFieldName)))
  {
    EmbedStepOrder(m, resp, ret);
  }

  lemma {:induction false} EmbedPhaseEmbeddedOrder(names: seq<string>, resp: Entries, ret: Entries)
    requires NoDup(names)
    requires EmbedPhase(names, resp, ret).Ok?
    requires forall n | n in names :: n !in Keys(Section(resp, EmbeddedFieldName))
    ensures Keys(Section(EmbedPhase(names, resp, ret).value.0, EmbeddedFieldName))
         == Keys(Section(resp, EmbeddedFieldName)) + names
    decreases |names|
  {
    if names != [] {
      var m := names[0];
      var rest := names[1..];
      var step := EmbedStep(m, resp, ret).value;
      assert m in Keys(ret) by { EmbedStepRet(m, resp, ret); }
      NoDupTail(names);
      assert names == [m] + rest;
      EmbedEmbeddedKeysStep(m, rest, resp, ret);
      EmbedPhaseEmbeddedOrder(rest, step.0, step.1);
      ConcatAssoc(Keys(Section(resp, EmbeddedFieldName)), [m], rest);
    }
  }

  /** Embedded names are appended to `_embedded` in order, and to `_links` when promoted. */
  lemma EmbedPhaseOrder(names: seq<string>, resp: Entries, ret: Entries)
    requires NoDup(names)
    requires EmbedPhase(names, resp, ret).Ok?
    requires forall n | n in names :: n !in Keys(Section(resp, LinksFieldName))
    requires forall n | n in names :: n !in Keys(Section(resp, EmbeddedFieldName))
    ensures var out := EmbedPhase(names, resp, ret).value;
      && Keys(Section(out.0, LinksFieldName)) == Keys(Section(resp, LinksFieldName)) + Promoted(names, ret)
      && Keys(Section(out.0, EmbeddedFieldName)) == Keys(Section(resp, EmbeddedFieldName)) + names
  {
    EmbedPhaseLinkOrder(names, resp, ret);
    EmbedPhaseEmbeddedOrder(names, resp, ret);
  }

  // ---------------------------------------------------------------------
  // The whole document
  // ---------------------------------------------------------------------

  /** Nothing the link loop consumes is an embedded field. */
  lemma EmbeddedValuesAfterLinks(links: seq<string>, titles: map<string, string>, embedded: seq<string>, ret: Entries)
    requires WellFormedConfig(links, titles, embedded)
    requires LinkPhase(links, titles, [], ret).Ok?
    ensures forall n | n in embedded :: Get(LinkPhase(links, titles, [], ret).value.1, n) == Get(ret, n)
  {
    LinkPhaseKeepsRet(links, titles, [], ret);
    forall n | n in embedded ensures n !in ConsumedNames(links, titles, ret) {
      if n in ConsumedNames(links, titles, ret) {
        ConsumedAreContributors(links, titles, ret, n);
      }
    }
  }

  /**
   * `to_representation` raises exactly when a link or embedded field is
   * missing from DRF's output, or a non-None link with a title contributor
   * lacks the contributor's value or is a list (KeyError / TypeError).
   */
  lemma RenderSucceeds(links: seq<string>, titles: map<string, string>, embedded: seq<string>, ret: Entries)
    requires WellFormedConfig(links, titles, embedded)
    ensures RenderParts(links, titles, embedded, ret).Ok?
        <==> LinkRenderable(links, titles, ret) && forall n | n in embedded :: n in Keys(ret)
  {
    LinkPhaseSucceeds(links, titles, [], ret);
    if LinkPhase(links, titles, [], ret).Ok? {
      var out := LinkPhase(links, titles, [], ret).value;
      EmbeddedValuesAfterLinks(links, titles, embedded, ret);
      EmbedPhaseSucceeds(embedded, out.0, out.1);
    }
  }

  /**
   * A link field ends up in `_links` as its built link object (with the
   * contributed title when it has a contributor), unless its value is None;
   * either way it is gone from the plain attributes.
   */
  lemma RenderedLinkField(links: seq<string>, titles: map<string, string>, embedded: seq<string>, ret: Entries, n: string)
    requires WellFormedConfig(links, titles, embedded)
    requires RenderParts(links, titles, embedded, ret).Ok?
    requires n in links
    ensures n in Keys(ret)
    ensures var parts := RenderParts(links, titles, embedded, ret).value;
      var linkSection := Section(parts.0, LinksFieldName);
      var v := Lookup(ret, n);
      && n !in Keys(parts.1)
      && (v.JNull? ==> n !in Keys(linkSection))
      && (!v.JNull? && n !in titles ==> Get(linkSection, n) == Some(BuildLinkObject(v)))
      && (!v.JNull? && n in titles ==>
            && BuildLinkObject(v).JObj?
            && titles[n] in Keys(ret)
            && Get(linkSection, n)
               == Some(JObj(Put(BuildLinkObject(v).entries, TitleProperty, Lookup(ret, titles[n])))))
  {
    var out := LinkPhase(links, titles, [], ret).value;
    LinkPhaseWrites(links, titles, [], ret, n);
    LinkPhaseFrame(links, titles, [], ret);
    EmbedPhaseFrame(embedded, out.0, out.1);
  }

  /**
   * What survives as a plain attribute: exactly the keys that are neither
   * link nor embedded fields nor contributors of non-None links, unchanged.
   */
  lemma PlainAttributes(links: seq<string>, titles: map<string, string>, embedded: seq<string>, ret: Entries, k: string)
    requires WellFormedConfig(links, titles, embedded)
    requires RenderParts(links, titles, embedded, ret).Ok?
    ensures var plain := RenderParts(links, titles, embedded, ret).value.1;
      && (k !in links && k !in embedded && k !in ConsumedNames(links, titles, ret) ==> Get(plain, k) == Get(ret, k))
      && (k in links || k in embedded || k in ConsumedNames(links, titles, ret) ==> k !in Keys(plain))
  {
    var out := LinkPhase(links, titles, [], ret).value;
    LinkPhaseKeepsRet(links, titles, [], ret);
    LinkPhaseFrame(links, titles, [], ret);
    EmbedPhaseFrame(embedded, out.0, out.1);
  }

  /**
   * A title contributor is popped when its link is rendered, and stays a
   * plain attribute, unchanged, when its link's value is None.
   */
  lemma ContributedTitle(links: seq<string>, titles: map<string, string>, embedded: seq<string>, ret: Entries, n: string)
    requires WellFormedConfig(links, titles, embedded)
    requires RenderParts(links, titles, embedded, ret).Ok?
    requires n in links && n in titles
    ensures var plain := RenderParts(links, titles, embedded, ret).value.1;
      && (Get(ret, n) == Some(JNull) ==> Get(plain, titles[n]) == Get(ret, titles[n]))
      && (Get(ret, n) != Some(JNull) ==> titles[n] !in Keys(plain))
  {
    PlainAttributes(links, titles, embedded, ret, titles[n]);
    if Get(ret, n) == Some(JNull) {
      if titles[n] in ConsumedNames(links, titles, ret) {
        ConsumedAreContributors(links, titles, ret, titles[n]);
      }
    } else {
      ConsumedIncludes(links, titles, ret, n);
    }
  }

  /**
   * An embedded field is stored verbatim under `_embedded`, and its self
   * link (or list of self links) goes to `_links` exactly when truthy.
   */
  lemma RenderedEmbeddedField(links: seq<string>, titles: map<string, string>, embedded: seq<string>, ret: Entries, n: string)
    requires WellFormedConfig(links, titles, embedded)
    requires RenderParts(links, titles, embedded, ret).Ok?
    requires n in embedded
    ensures n in Keys(ret)
    ensures var parts := RenderParts(links, titles, embedded, ret).value;
      var child := Lookup(ret, n);
      && Get(Section(parts.0, EmbeddedFieldName), n) == Some(child)
      && Get(Section(parts.0, LinksFieldName), n) == (if Truthy(EmbedSelf(child)) then Some(EmbedSelf(child)) else None)
      && n !in Keys(parts.1)
  {
    var out := LinkPhase(links, titles, [], ret).value;
    EmbeddedValuesAfterLinks(links, titles, embedded, ret);
    LinkPhaseFrame(links, titles, [], ret);
    EmbedPhaseWrites(embedded, out.0, out.1, n);
    EmbedPhaseFrame(embedded, out.0, out.1);
  }

  /** In a sectioned `resp`, a section's key is present exactly when the section is non-empty. */
  lemma SectionPresent(resp: Entries, s: string)
    requires Sectioned(resp)
    ensures s in Keys(resp) <==> Keys(Section(resp, s)) != []
  {
  }

  /** After the link loop `_links` holds the non-None links, and `_embedded` is still empty. */
  lemma SectionsAfterLinks(links: seq<string>, titles: map<string, string>, ret: Entries)
    requires LinkConfig(links, titles)
    requires LinkPhase(links, titles, [], ret).Ok?
    ensures var resp := LinkPhase(links, titles, [], ret).value.0;
      && Keys(Section(resp, LinksFieldName)) == NonNullLinks(links, ret)
      && Keys(Section(resp, EmbeddedFieldName)) == []
  {
    LinkPhaseFrame(links, titles, [], ret);
    LinkPhaseOrder(links, titles, [], ret);
  }

  /**
   * The key order inside the two sections: `_links` holds the non-None
   * links then the promoted embedded fields, `_embedded` every embedded
   * field, all in declaration order.
   */
  lemma RenderSectionOrder(links: seq<string>, titles: map<string, string>, embedded: seq<string>, ret: Entries)
    requires WellFormedConfig(links, titles, embedded)
    requires RenderParts(links, titles, embedded, ret).Ok?
    ensures var resp := RenderParts(links, titles, embedded, ret).value.0;
      && Keys(Section(resp, LinksFieldName)) == NonNullLinks(links, ret) + Promoted(embedded, ret)
      && Keys(Section(resp, EmbeddedFieldName)) == embedded
  {
    var out := LinkPhase(links, titles, [], ret).value;
    SectionsAfterLinks(links, titles, ret);
    NonNullLinksWithin(links, ret);
    EmbeddedValuesAfterLinks(links, titles, embedded, ret);
    PromotedCongruent(embedded, out.1, ret);
    EmbedPhaseOrder(embedded, out.0, out.1);
  }

  /**
   * The shape of `resp`: only `_links` and `_embedded`, each present only
   * when something was written to it.
   */
  lemma RenderLayout(links: seq<string>, titles: map<string, string>, embedded: seq<string>, ret: Entries)
    requires WellFormedConfig(links, titles, embedded)
    requires RenderParts(links, titles, embedded, ret).Ok?
    ensures var resp := RenderParts(links, titles, embedded, ret).value.0;
      && Sectioned(resp)
      && (LinksFieldName in Keys(resp) <==> NonNullLinks(links, ret) + Promoted(embedded, ret) != [])
      && (EmbeddedFieldName in Keys(resp) <==> embedded != [])
  {
    var out := LinkPhase(links, titles, [], ret).value;
    var resp := RenderParts(links, titles, embedded, ret).value.0;
    assert Sectioned([]);
    LinkPhaseFrame(links, titles, [], ret);
    EmbedPhaseFrame(embedded, out.0, out.1);
    RenderSectionOrder(links, titles, embedded, ret);
    SectionPresent(resp, LinksFieldName);
    SectionPresent(resp, EmbeddedFieldName);
  }

  /** A sequence without repeats has as many distinct elements as entries. */
  lemma {:induction false} NoDupCard(ks: seq<string>)
    requires NoDup(ks)
    ensures |set x | x in ks| == |ks|
    decreases |ks|
  {
    if ks != [] {
      NoDupTail(ks);
      NoDupCard(ks[1..]);
      assert (set x | x in ks) == {ks[0]} + (set x | x in ks[1..]);
    }
  }

  /** Distinct keys drawn from the two section names come in one of five orders. */
  lemma SectionKeysShape(ks: seq<string>)
    requires NoDup(ks)
    requires forall s | s in ks :: s == LinksFieldName || s == EmbeddedFieldName
    ensures || ks == [] || ks == [LinksFieldName] || ks == [EmbeddedFieldName]
            || ks == [LinksFieldName, EmbeddedFieldName] || ks == [EmbeddedFieldName, LinksFieldName]
  {
    var present := set x | x in ks;
    var both := {LinksFieldName, EmbeddedFieldName};
    NoDupCard(ks);
    assert present + (both - present) == both;
    assert present * (both - present) == {};
    if |ks| == 2 {
      assert ks[0] in ks && ks[1] in ks && ks[0] != ks[1];
      assert ks == [ks[0], ks[1]];
    } else if |ks| == 1 {
      assert ks[0] in ks;
      assert ks == [ks[0]];
    }
  }

  /**
   * An embedded step adds `_links` to `resp` when it promotes a self link
   * and `_links` is new, then `_embedded` when that is new; existing keys
   * keep their place.
   */
  lemma EmbedStepTopKeys(n: string, resp: Entries, ret: Entries)
    requires n in Keys(ret) && UniqueKeys(resp)
    ensures var out := EmbedStep(n, resp, ret).value.0;
      var ks := Keys(resp);
      var linked := if Truthy(EmbedSelf(Lookup(ret, n))) && LinksFieldName !in ks then ks + [LinksFieldName] else ks;
      && Keys(out) == (if EmbeddedFieldName in linked then linked else linked + [EmbeddedFieldName])
      && UniqueKeys(out)
  {
    var child := Lookup(ret, n);
    var self := EmbedSelf(child);
    var linked := if Truthy(self) then PutIn(resp, LinksFieldName, n, self) else resp;
    assert UniqueKeys(linked);
  }

  /** The embedded loop never moves a key of `resp`: the old keys stay a prefix. */
  lemma {:induction false} EmbedPhaseTopKeysPrefix(names: seq<string>, resp: Entries, ret: Entries)
    requires UniqueKeys(resp)
    requires EmbedPhase(names, resp, ret).Ok?
    ensures Keys(resp) <= Keys(EmbedPhase(names, resp, ret).value.0)
    decreases |names|
  {
    if names != [] {
      var step := EmbedStep(names[0], resp, ret).value;
      assert names[0] in Keys(ret) by { EmbedStepRet(names[0], resp, ret); }
      EmbedStepTopKeys(names[0], resp, ret);
      EmbedPhaseTopKeysPrefix(names[1..], step.0, step.1);
    }
  }

  /** The keys the first embedded step leaves in `resp` stay a prefix to the end of the loop. */
  lemma EmbedPhaseFirstKeys(names: seq<string>, resp: Entries, ret: Entries)
    requires names != [] && UniqueKeys(resp)
    requires EmbedPhase(names, resp, ret).Ok?
    ensures var ks := Keys(resp);
      var linked := if Truthy(EmbedSelf(Lookup(ret, names[0]))) && LinksFieldName !in ks then ks + [LinksFieldName] else ks;
      (if EmbeddedFieldName in linked then linked else linked + [EmbeddedFieldName])
      <= Keys(EmbedPhase(names, resp, ret).value.0)
  {
    var step := EmbedStep(names[0], resp, ret).value;
    assert names[0] in Keys(ret) by { EmbedStepRet(names[0], resp, ret); }
    EmbedStepTopKeys(names[0], resp, ret);
    EmbedPhaseTopKeysPrefix(names[1..], step.0, step.1);
  }

  /** The keys of the first embedded step, from `resp` holding nothing or only `_links`. */
  lemma FirstStepKeys(ks: seq<string>, linked: bool, promoted: bool)
    requires ks == (if linked then [LinksFieldName] else [])
    ensures var withLinks := if promoted && LinksFieldName !in ks then ks + [LinksFieldName] else ks;
      (if EmbeddedFieldName in withLinks then withLinks else withLinks + [EmbeddedFieldName])
      == (if linked || promoted then [LinksFieldName, EmbeddedFieldName] else [EmbeddedFieldName])
  {
  }

  /**
   * Once the link loop leaves only `_links` (or nothing) in `resp`, the
   * embedded loop puts `_links` before `_embedded` exactly when it was
   * already there or the first embedded field has a truthy self link.
   */
  lemma EmbedSectionsAfterLinks(embedded: seq<string>, resp: Entries, ret: Entries, linked: bool)
    requires embedded != []
    requires Keys(resp) == (if linked then [LinksFieldName] else [])
    requires EmbedPhase(embedded, resp, ret).Ok?
    ensures embedded[0] in Keys(ret)
    ensures (if linked || Truthy(EmbedSelf(Lookup(ret, embedded[0]))) then [LinksFieldName, EmbeddedFieldName] else [EmbeddedFieldName])
         <= Keys(EmbedPhase(embedded, resp, ret).value.0)
  {
    assert embedded[0] in Keys(ret) by { EmbedStepRet(embedded[0], resp, ret); }
    FirstStepKeys(Keys(resp), linked, Truthy(EmbedSelf(Lookup(ret, embedded[0]))));
    EmbedPhaseFirstKeys(embedded, resp, ret);
  }

  /** Whether a single name is promoted depends only on its own value. */
  lemma PromotedOne(e: string, a: Entries, b: Entries)
    requires e in Keys(a) && Get(a, e) == Get(b, e)
    ensures Promoted([e], b) != [] <==> Truthy(EmbedSelf(Lookup(a, e)))
  {
    PromotedCongruent([e], a, b);
    assert [e][1..] == [];
  }

  /** After the link loop `resp` holds `_links` exactly when some link was not None. */
  lemma TopKeysAfterLinks(links: seq<string>, titles: map<string, string>, ret: Entries)
    requires LinkConfig(links, titles)
    requires LinkPhase(links, titles, [], ret).Ok?
    ensures Keys(LinkPhase(links, titles, [], ret).value.0)
         == (if NonNullLinks(links, ret) != [] then [LinksFieldName] else [])
  {
    var resp := LinkPhase(links, titles, [], ret).value.0;
    var ks := Keys(resp);
    assert && NoDup(ks)
           && (forall s | s in ks :: s == LinksFieldName || s == EmbeddedFieldName)
           && (LinksFieldName in ks <==> NonNullLinks(links, ret) != [])
           && EmbeddedFieldName !in ks by {
      assert Sectioned([]);
      LinkPhaseFrame(links, titles, [], ret);
      SectionsAfterLinks(links, titles, ret);
      SectionPresent(resp, LinksFieldName);
      SectionPresent(resp, EmbeddedFieldName);
    }
    SectionKeysShape(ks);
  }

  /**
   * The order of `resp`'s keys from what is known about them: which are
   * present, and what the first embedded step left as a prefix.
   */
  lemma SectionOrderFromPrefix(ks: seq<string>, linked: bool, firstPromoted: bool, promoted: bool, embeds: bool)
    requires NoDup(ks)
    requires forall s | s in ks :: s == LinksFieldName || s == EmbeddedFieldName
    requires LinksFieldName in ks <==> linked || promoted
    requires EmbeddedFieldName in ks <==> embeds
    requires embeds ==> (if linked || firstPromoted then [LinksFieldName, EmbeddedFieldName] else [EmbeddedFieldName]) <= ks
    ensures var sections := if embeds then [EmbeddedFieldName] else [];
      ks == if linked || (embeds && firstPromoted) then [LinksFieldName] + sections
            else sections + (if promoted then [LinksFieldName] else [])
  {
    SectionKeysShape(ks);
  }

  /**
   * Which section `resp` writes first: `_links` leads when a link was not
   * None or the first embedded field is promoted; otherwise `_embedded`
   * leads and `_links`, when a later embedded field is promoted, follows.
   */
  lemma RenderTopKeyOrder(links: seq<string>, titles: map<string, string>, embedded: seq<string>, ret: Entries)
    requires WellFormedConfig(links, titles, embedded)
    requires RenderParts(links, titles, embedded, ret).Ok?
    ensures var resp := RenderParts(links, titles, embedded, ret).value.0;
      var sections := if embedded != [] then [EmbeddedFieldName] else [];
      Keys(resp)
      == if NonNullLinks(links, ret) != [] || (embedded != [] && Promoted([embedded[0]], ret) != [])
         then [LinksFieldName] + sections
         else sections + (if Promoted(embedded, ret) != [] then [LinksFieldName] else [])
  {
    var out := LinkPhase(links, titles, [], ret).value;
    var ks := Keys(RenderParts(links, titles, embedded, ret).value.0);
    var linked := NonNullLinks(links, ret) != [];
    var firstPromoted := embedded != [] && Promoted([embedded[0]], ret) != [];
    assert && NoDup(ks)
           && (forall s | s in ks :: s == LinksFieldName || s == EmbeddedFieldName)
           && (LinksFieldName in ks <==> linked || Promoted(embedded, ret) != [])
           && (EmbeddedFieldName in ks <==> embedded != []) by {
      RenderLayout(links, titles, embedded, ret);
    }
    if embedded != [] {
      var e := embedded[0];
      assert ks == Keys(EmbedPhase(embedded, out.0, out.1).value.0);
      assert Keys(out.0) == (if linked then [LinksFieldName] else []) by { TopKeysAfterLinks(links, titles, ret); }
      EmbedSectionsAfterLinks(embedded, out.0, out.1, linked);
      assert firstPromoted <==> Truthy(EmbedSelf(Lookup(out.1, e))) by {
        EmbeddedValuesAfterLinks(links, titles, embedded, ret);
        PromotedOne(e, out.1, ret);
      }
    }
    SectionOrderFromPrefix(ks, linked, firstPromoted, Promoted(embedded, ret) != [], embedded != []);
  }

  /**
   * The plain attributes are DRF's keys in DRF's order, less the link names,
   * the consumed contributors and the embedded names.
   */
  lemma PlainAttributeOrder(links: seq<string>, titles: map<string, string>, embedded: seq<string>, ret: Entries)
    requires LinkConfig(links, titles)
    requires RenderParts(links, titles, embedded, ret).Ok?
    ensures Keys(RenderParts(links, titles, embedded, ret).value.1)
         == Without(Keys(ret), links + ConsumedNames(links, titles, ret) + embedded)
  {
    var out := LinkPhase(links, titles, [], ret).value;
    LinkPhaseKeyOrder(links, titles, [], ret);
    EmbedPhaseKeyOrder(embedded, out.0, out.1);
    WithoutWithout(Keys(ret), links + ConsumedNames(links, titles, ret), embedded);
  }

  /**
   * `dict(resp, **ret)`: the sections first, then the plain attributes in
   * their original order, when DRF's output has distinct keys and neither
   * `_links` nor `_embedded` among them.
   */
  lemma RenderedDocument(links: seq<string>, titles: map<string, string>, embedded: seq<string>, ret: Entries)
    requires WellFormedConfig(links, titles, embedded)
    requires UniqueKeys(ret) && LinksFieldName !in Keys(ret) && EmbeddedFieldName !in Keys(ret)
    requires RenderParts(links, titles, embedded, ret).Ok?
    ensures var parts := RenderParts(links, titles, embedded, ret).value;
      var doc := Render(links, titles, embedded, ret).value;
      && Keys(doc) == Keys(parts.0) + Keys(parts.1)
      && UniqueKeys(doc)
      && (forall k | k == LinksFieldName || k == EmbeddedFieldName :: Get(doc, k) == Get(parts.0, k))
      && (forall k | k != LinksFieldName && k != EmbeddedFieldName :: Get(doc, k) == Get(parts.1, k))
      && Keys(parts.1) == Without(Keys(ret), links + ConsumedNames(links, titles, ret) + embedded)
  {
    var out := LinkPhase(links, titles, [], ret).value;
    var parts := RenderParts(links, titles, embedded, ret).value;
    assert Keys(parts.1) == Without(Keys(ret), links + ConsumedNames(links, titles, ret) + embedded) by {
      PlainAttributeOrder(links, titles, embedded, ret);
    }
    assert Sectioned(parts.0) by { RenderLayout(links, titles, embedded, ret); }
    assert UniqueKeys(parts.1) && forall k | k in Keys(parts.1) :: k in Keys(ret) by {
      LinkPhaseFrame(links, titles, [], ret);
      EmbedPhaseFrame(embedded, out.0, out.1);
    }
    MergeSections(parts.0, parts.1);
  }

  /** Merging plain attributes after the sections keeps both, in that order. */
  lemma MergeSections(resp: Entries, attrs: Entries)
    requires Sectioned(resp) && UniqueKeys(attrs)
    requires forall k | k in Keys(attrs) :: k != LinksFieldName && k != EmbeddedFieldName
    ensures var doc := Merge(resp, attrs);
      && Keys(doc) == Keys(resp) + Keys(attrs)
      && UniqueKeys(doc)
      && (forall k | k == LinksFieldName || k == EmbeddedFieldName :: Get(doc, k) == Get(resp, k))
      && (forall k | k != LinksFieldName && k != EmbeddedFieldName :: Get(doc, k) == Get(attrs, k))
  {
    assert forall k | k in Keys(attrs) :: k !in Keys(resp);
  }

  /**
   * The self link a parent would promote from this rendered document (as an
   * embedded child) is the built link object of the document's own URL
   * field, carrying the contributed title when the URL field has a title
   * contributor.
   */
  lemma SelfLinkOfRendered(links: seq<string>, titles: map<string, string>, embedded: seq<string>, ret: Entries)
    requires WellFormedConfig(links, titles, embedded)
    requires UniqueKeys(ret) && LinksFieldName !in Keys(ret) && EmbeddedFieldName !in Keys(ret)
    requires RenderParts(links, titles, embedded, ret).Ok?
    requires UrlFieldName in links && Get(ret, UrlFieldName) != Some(JNull)
    ensures UrlFieldName in Keys(ret)
    ensures UrlFieldName in titles ==>
      BuildLinkObject(Lookup(ret, UrlFieldName)).JObj? && titles[UrlFieldName] in Keys(ret)
    ensures var doc := JObj(Render(links, titles, embedded, ret).value);
      var built := BuildLinkObject(Lookup(ret, UrlFieldName));
      var self := if UrlFieldName in titles
        then JObj(Put(built.entries, TitleProperty, Lookup(ret, titles[UrlFieldName])))
        else built;
      GetUrl(doc) == self && EmbedSelf(doc) == self
  {
    var parts := RenderParts(links, titles, embedded, ret).value;
    var doc := Render(links, titles, embedded, ret).value;
    var linkSection := Section(parts.0, LinksFieldName);
    RenderedLinkField(links, titles, embedded, ret, UrlFieldName);
    var built := BuildLinkObject(Lookup(ret, UrlFieldName));
    var self := if UrlFieldName in titles
      then JObj(Put(built.entries, TitleProperty, Lookup(ret, titles[UrlFieldName])))
      else built;
    assert Get(linkSection, UrlFieldName) == Some(self);
    assert Get(parts.0, LinksFieldName) == Some(JObj(linkSection)) by {
      RenderLayout(links, titles, embedded, ret);
      assert LinksFieldName in Keys(parts.0);
    }
    assert Get(doc, LinksFieldName) == Get(parts.0, LinksFieldName) by {
      RenderedDocument(links, titles, embedded, ret);
    }
    SelfLinkFromSection(doc, linkSection, self);
  }

  /** A document whose `_links` holds v under `url` has v as its URL and as its self link. */
  lemma SelfLinkFromSection(doc: Entries, linkSection: Entries, v: Json)
    requires Get(doc, LinksFieldName) == Some(JObj(linkSection))
    requires Get(linkSection, UrlFieldName) == Some(v)
    ensures GetUrl(JObj(doc)) == v && EmbedSelf(JObj(doc)) == v
  {
    assert Section(doc, LinksFieldName) == linkSection;
  }
}
