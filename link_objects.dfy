/**
 * Properties of `build_link_object` and of the self link an embedded field
 * contributes to its parent's `_links`.
 */
module LinkObjectProperties {
  import opened Json
  import opened HalSerializers

  /** Already a link object: a dict with a truthy `href`, or a list of such values. */
  predicate Settled(v: Json) {
    match v
    case JList(xs) => forall i | 0 <= i < |xs| :: Settled(xs[i])
    case JObj(es) => HrefTruthy(es)
    case _ => false
  }

  /**
   * Building leaves a value alone exactly when it is already settled;
   * everything else is wrapped (at some leaf) as `{'href': ...}`.
   */
  lemma {:induction false} BuildLinkObjectFixpoint(v: Json)
    ensures BuildLinkObject(v) == v <==> Settled(v)
  {
    match v
    case JList(xs) =>
      var built := BuildLinkObject(v).items;
      forall i | 0 <= i < |xs| ensures built[i] == xs[i] <==> Settled(xs[i]) {
        BuildLinkObjectFixpoint(xs[i]);
      }
      if built == xs {
        assert forall i | 0 <= i < |xs| :: built[i] == xs[i];
      }
    case _ =>
  }

  /** A leaf that wraps to a link object with a truthy `href`. */
  predicate WrapStable(v: Json) {
    match v
    case JList(xs) => forall i | 0 <= i < |xs| :: WrapStable(xs[i])
    case JObj(es) => HrefTruthy(es) || es != []
    case _ => Truthy(v)
  }

  /** The built value is settled exactly when no leaf is wrapped around a falsy value. */
  lemma {:induction false} BuildLinkObjectSettles(v: Json)
    ensures Settled(BuildLinkObject(v)) <==> WrapStable(v)
  {
    match v
    case JList(xs) =>
      var built := BuildLinkObject(v).items;
      forall i | 0 <= i < |xs| ensures Settled(built[i]) <==> WrapStable(xs[i]) {
        BuildLinkObjectSettles(xs[i]);
      }
    case JObj(es) =>
      if !HrefTruthy(es) {
        assert Get([(HrefProperty, v)], HrefProperty) == Some(v);
      }
    case _ =>
      assert Get([(HrefProperty, v)], HrefProperty) == Some(v);
  }

  /**
   * Building twice is building once unless a wrapped leaf is falsy: a `0`,
   * `""`, `None`, `{}` or `[]` is wrapped on the first pass and again on the
   * second. A `{'href': falsy}` link is wrapped once, to
   * `{'href': {'href': falsy}}`, whose href is truthy, so it then stays put.
   */
  lemma BuildLinkObjectIdempotent(v: Json)
    ensures BuildLinkObject(BuildLinkObject(v)) == BuildLinkObject(v) <==> WrapStable(v)
  {
    BuildLinkObjectFixpoint(BuildLinkObject(v));
    BuildLinkObjectSettles(v);
  }

  /** A list of links is built element by element, so building distributes over concatenation. */
  lemma BuildLinkObjectConcat(xs: seq<Json>, ys: seq<Json>)
    ensures BuildLinkObject(JList(xs + ys)).items
         == BuildLinkObject(JList(xs)).items + BuildLinkObject(JList(ys)).items
  {
    var l := BuildLinkObject(JList(xs + ys)).items;
    var r := BuildLinkObject(JList(xs)).items + BuildLinkObject(JList(ys)).items;
    assert |l| == |r|;
    forall i | 0 <= i < |l| ensures l[i] == r[i] {
      if i < |xs| { assert (xs + ys)[i] == xs[i]; }
      else { assert (xs + ys)[i] == ys[i - |xs|]; }
    }
  }

  /**
   * A single embedded child contributes a truthy self link only when it is
   * a dict whose `_links` dict holds a truthy `self`.
   */
  lemma EmbedSelfOfChild(child: Json)
    requires !child.JList?
    ensures Truthy(EmbedSelf(child)) <==>
      && child.JObj?
      && Get(child.entries, LinksFieldName) == Some(JObj(Section(child.entries, LinksFieldName)))
      && UrlFieldName in Keys(Section(child.entries, LinksFieldName))
      && Truthy(Lookup(Section(child.entries, LinksFieldName), UrlFieldName))
  {
    if child.JObj? {
      var es := child.entries;
      match Get(es, LinksFieldName)
      case Some(JObj(links)) =>
        assert Section(es, LinksFieldName) == links;
      case _ =>
    }
  }

  /**
   * A list of embedded children is promoted as soon as one child is truthy,
   * whether or not any child has a self link: children without one put
   * None entries into the promoted list.
   */
  lemma EmbedSelfOfList(xs: seq<Json>)
    ensures EmbedSelf(JList(xs)).JList?
    ensures Truthy(EmbedSelf(JList(xs))) <==> exists i | 0 <= i < |xs| :: Truthy(xs[i])
    ensures |EmbedSelf(JList(xs)).items| <= |xs|
  {
  }

  /** Every entry of the promoted list is the self link of a truthy child. */
  lemma {:induction false} SelfLinksFromChildren(xs: seq<Json>, j: nat)
    requires j < |SelfLinks(xs)|
    ensures exists i | 0 <= i < |xs| :: Truthy(xs[i]) && SelfLinks(xs)[j] == GetUrl(xs[i])
    decreases |xs|
  {
    var head := if Truthy(xs[0]) then [GetUrl(xs[0])] else [];
    assert SelfLinks(xs) == head + SelfLinks(xs[1..]);
    if j < |head| {
      assert SelfLinks(xs)[j] == GetUrl(xs[0]);
    } else {
      SelfLinksFromChildren(xs[1..], j - |head|);
      var i :| 0 <= i < |xs[1..]| && Truthy(xs[1..][i]) && SelfLinks(xs[1..])[j - |head|] == GetUrl(xs[1..][i]);
      assert xs[i + 1] == xs[1..][i];
    }
  }

  /**
   * A truthy child without a self link still adds an entry to the promoted
   * list, a None, and the list is then stored under `_links` all the same.
   */
  lemma {:induction false} PromotedListHoldsNone(xs: seq<Json>, i: nat)
    requires i < |xs| && Truthy(xs[i]) && GetUrl(xs[i]) == JNull
    ensures Truthy(EmbedSelf(JList(xs)))
    ensures JNull in EmbedSelf(JList(xs)).items
    decreases |xs|
  {
    var head := if Truthy(xs[0]) then [GetUrl(xs[0])] else [];
    assert SelfLinks(xs) == head + SelfLinks(xs[1..]);
    if i > 0 {
      assert xs[1..][i - 1] == xs[i];
      PromotedListHoldsNone(xs[1..], i - 1);
    }
  }

  /**
   * `_get_url` gives None for anything but a dict, for a dict without
   * `_links`, for a `_links` value that is not a dict (the caught
   * AttributeError), and for a `_links` dict without `self`.
   */
  lemma GetUrlNone(item: Json)
    ensures !item.JObj? ==> GetUrl(item) == JNull
    ensures item.JObj? && LinksFieldName !in Keys(item.entries) ==> GetUrl(item) == JNull
    ensures item.JObj? && LinksFieldName in Keys(item.entries) && !Lookup(item.entries, LinksFieldName).JObj?
            ==> GetUrl(item) == JNull
    ensures item.JObj? && Get(item.entries, LinksFieldName) == Some(JObj(Section(item.entries, LinksFieldName)))
            && UrlFieldName !in Keys(Section(item.entries, LinksFieldName))
            ==> GetUrl(item) == JNull
  {
  }
}
