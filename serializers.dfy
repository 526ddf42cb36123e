/**
 * The HAL model serializer of drf_hal_json/serializers.py: how declared
 * fields are sorted into link, title-contributor and embedded buckets, how a
 * raw value becomes a link object, and how the flat field map that Django
 * REST Framework produces for one object is reshaped into a HAL document
 * with `_links`, `_embedded` and the remaining plain attributes.
 */
module HalSerializers {
  import opened Json

  const LinksFieldName := "_links"
  const EmbeddedFieldName := "_embedded"
  const UrlFieldName := "self"
  const HrefProperty := "href"
  const TitleProperty := "title"

  // ---------------------------------------------------------------------
  // Field classification
  // ---------------------------------------------------------------------

  /**
   * What the serializer's isinstance checks find out about a declared field:
   * a field that renders as a link (related, many-related, identity,
   * hyperlinked-property, file or image field), a field contributing the
   * title of the link named `target`, a nested serializer, or anything else.
   */
  datatype FieldKind = Link | TitleContributor(target: string) | Embedded | Plain

  datatype Field = Field(name: string, kind: FieldKind)

  predicate IsLinkField(f: Field) { f.kind.Link? }

  predicate IsLinkTitleField(f: Field) { f.kind.TitleContributor? }

  predicate IsEmbeddedField(f: Field) { f.kind.Embedded? }

  /** The embedded test only runs when the title test failed (`elif`). */
  predicate CollectedAsEmbedded(f: Field) {
    !IsLinkTitleField(f) && IsEmbeddedField(f)
  }

  function Names(fs: seq<Field>): (ns: seq<string>)
    ensures |ns| == |fs|
    ensures forall i | 0 <= i < |fs| :: ns[i] == fs[i].name
  {
    seq(|fs|, i requires 0 <= i < |fs| => fs[i].name)
  }

  /** The names of the fields that satisfy p, in declaration order. */
  function Selected(fs: seq<Field>, p: Field -> bool): seq<string> {
    if fs == [] then []
    else Selected(fs[..|fs| - 1], p) + (if p(fs[|fs| - 1]) then [fs[|fs| - 1].name] else [])
  }

  function LinkNames(fs: seq<Field>): seq<string> {
    Selected(fs, IsLinkField)
  }

  function EmbeddedNames(fs: seq<Field>): seq<string> {
    Selected(fs, CollectedAsEmbedded)
  }

  /** Target link name to contributing field name; a later contributor wins. */
  function TitleFieldNames(fs: seq<Field>): map<string, string> {
    if fs == [] then map[]
    else
      var m := TitleFieldNames(fs[..|fs| - 1]);
      var f := fs[|fs| - 1];
      if IsLinkTitleField(f) then m[f.kind.target := f.name] else m
  }

  // ---------------------------------------------------------------------
  // Link objects
  // ---------------------------------------------------------------------

  /** `val.get('href', False)` is truthy. */
  predicate HrefTruthy(es: Entries) {
    match Get(es, HrefProperty)
    case Some(h) => Truthy(h)
    case None => false
  }

  /** A link object, or a (possibly nested) list of link objects. */
  predicate LinkShaped(v: Json) {
    match v
    case JList(xs) => forall i | 0 <= i < |xs| :: LinkShaped(xs[i])
    case JObj(es) => HrefProperty in Keys(es)
    case _ => false
  }

  /**
   * `build_link_object`: lists element by element; a dict with a truthy
   * `href` as it is; anything else wrapped as `{'href': val}`.
   */
  function BuildLinkObject(v: Json): (r: Json)
    ensures v.JList? <==> r.JList?
    ensures v.JList? ==> |r.items| == |v.items|
    ensures LinkShaped(r)
  {
    match v
    case JList(xs) => JList(seq(|xs|, i requires 0 <= i < |xs| => BuildLinkObject(xs[i])))
    case JObj(es) => if HrefTruthy(es) then v else JObj([(HrefProperty, v)])
    case _ => JObj([(HrefProperty, v)])
  }

  /**
   * `_get_url`: `item.get('_links', {}).get('self')`, where an item or a
   * `_links` value without `.get` (AttributeError) gives None.
   */
  function GetUrl(item: Json): (r: Json)
    ensures !r.JNull? ==> item.JObj? && Get(item.entries, LinksFieldName).Some?
    ensures item.JObj? && Get(item.entries, LinksFieldName) == Some(JObj(Section(item.entries, LinksFieldName)))
            && UrlFieldName in Keys(Section(item.entries, LinksFieldName))
            ==> r == Lookup(Section(item.entries, LinksFieldName), UrlFieldName)
  {
    match item
    case JObj(es) =>
      (match Get(es, LinksFieldName)
       case None => JNull
       case Some(JObj(links)) =>
         (match Get(links, UrlFieldName)
          case Some(u) => u
          case None => JNull)
       case Some(_) => JNull)
    case _ => JNull
  }

  /**
   * The self links of the truthy members of an embedded list, in order
   * (`[self._get_url(x) for x in items if x]`).
   */
  function SelfLinks(xs: seq<Json>): (r: seq<Json>)
    ensures |r| <= |xs|
    ensures |r| > 0 <==> exists i | 0 <= i < |xs| :: Truthy(xs[i])
  {
    if xs == [] then []
    else
      var r := (if Truthy(xs[0]) then [GetUrl(xs[0])] else []) + SelfLinks(xs[1..]);
      assert forall i | 0 < i < |xs| :: xs[i] == xs[1..][i - 1];
      r
  }

  /** The value an embedded field would contribute to the parent's `_links`. */
  function EmbedSelf(child: Json): Json {
    match child
    case JList(xs) => JList(SelfLinks(xs))
    case _ => GetUrl(child)
  }

  // ---------------------------------------------------------------------
  // Document assembly, as a specification
  // ---------------------------------------------------------------------

  /** The section s of the `resp` defaultdict, `{}` while not yet created. */
  function Section(resp: Entries, s: string): Entries {
    match Get(resp, s)
    case Some(JObj(es)) => es
    case _ => []
  }

  /** `resp[s][k] = v` on the defaultdict `resp`. */
  function PutIn(resp: Entries, s: string, k: string, v: Json): (r: Entries)
    ensures Section(r, s) == Put(Section(resp, s), k, v)
    ensures forall t | t != s :: Get(r, t) == Get(resp, t)
  {
    Put(resp, s, JObj(Put(Section(resp, s), k, v)))
  }

  /** `link['title'] = t`, a TypeError when the built link is a list. */
  function WithTitle(n: string, link: Json, t: Json): Result<Json> {
    match link
    case JObj(es) => Ok(JObj(Put(es, TitleProperty, t)))
    case _ => Err(TypeError(n))
  }

  /** One iteration of the loop over `link_field_names`. */
  function LinkStep(n: string, titles: map<string, string>, resp: Entries, ret: Entries)
    : Result<(Entries, Entries)>
  {
    if n !in Keys(ret) then Err(KeyError(n))
    else
      var v := Lookup(ret, n);
      var rest := Remove(ret, n);
      if v.JNull? then Ok((resp, rest))
      else
        var link := BuildLinkObject(v);
        if n !in titles then Ok((PutIn(resp, LinksFieldName, n, link), rest))
        else if titles[n] !in Keys(rest) then Err(KeyError(titles[n]))
        else
          match WithTitle(n, link, Lookup(rest, titles[n]))
          case Err(e) => Err(e)
          case Ok(titled) => Ok((PutIn(resp, LinksFieldName, n, titled), Remove(rest, titles[n])))
  }

  function LinkPhase(names: seq<string>, titles: map<string, string>, resp: Entries, ret: Entries)
    : Result<(Entries, Entries)>
    decreases |names|
  {
    if names == [] then Ok((resp, ret))
    else
      match LinkStep(names[0], titles, resp, ret)
      case Err(e) => Err(e)
      case Ok(s) => LinkPhase(names[1..], titles, s.0, s.1)
  }

  /** One iteration of the loop over `embedded_field_names`. */
  function EmbedStep(n: string, resp: Entries, ret: Entries): Result<(Entries, Entries)> {
    if n !in Keys(ret) then Err(KeyError(n))
    else
      var child := Lookup(ret, n);
      var self := EmbedSelf(child);
      var linked := if Truthy(self) then PutIn(resp, LinksFieldName, n, self) else resp;
      Ok((PutIn(linked, EmbeddedFieldName, n, child), Remove(ret, n)))
  }

  function EmbedPhase(names: seq<string>, resp: Entries, ret: Entries): Result<(Entries, Entries)>
    decreases |names|
  {
    if names == [] then Ok((resp, ret))
    else
      match EmbedStep(names[0], resp, ret)
      case Err(e) => Err(e)
      case Ok(s) => EmbedPhase(names[1..], s.0, s.1)
  }

  /** The `resp` sections and the plain attributes left in `ret`. */
  function RenderParts(links: seq<string>, titles: map<string, string>, embedded: seq<string>, ret: Entries)
    : Result<(Entries, Entries)>
  {
    match LinkPhase(links, titles, [], ret)
    case Err(e) => Err(e)
    case Ok(s) => EmbedPhase(embedded, s.0, s.1)
  }

  /** `dict(resp, **ret)` after both loops. */
  function Render(links: seq<string>, titles: map<string, string>, embedded: seq<string>, ret: Entries)
    : Result<Entries>
  {
    match RenderParts(links, titles, embedded, ret)
    case Err(e) => Err(e)
    case Ok(s) => Ok(Merge(s.0, s.1))
  }

  /** The constructor's `data[LINKS_FIELD_NAME] = dict()` when absent. */
  function WithLinksPlaceholder(data: Entries): (r: Entries)
    ensures LinksFieldName in Keys(r)
    ensures LinksFieldName in Keys(data) ==> r == data
    ensures LinksFieldName !in Keys(data) ==>
      Keys(r) == Keys(data) + [LinksFieldName] && Get(r, LinksFieldName) == Some(JObj([]))
    ensures forall k | k != LinksFieldName :: Get(r, k) == Get(data, k)
  {
    if LinksFieldName in Keys(data) then data else Put(data, LinksFieldName, JObj([]))
  }

  // ---------------------------------------------------------------------
  // The serializer object
  // ---------------------------------------------------------------------

  /** A mutable dict handed to the serializer as incoming `data`. */
  class Dict {
    var entries: Entries

    constructor(entries: Entries)
      ensures this.entries == entries
    {
      this.entries := entries;
    }
  }

  lemma {:induction false} PutTwice(m: Entries, k: string, a: Json, b: Json)
    ensures Put(Put(m, k, a), k, b) == Put(m, k, b)
    decreases |m|
  {
    if m == [] {
    } else if m[0].0 == k {
      RemoveAbsent(Remove(m[1..], k), k);
    } else {
      var p := Put(m, k, a);
      assert p[1..] == Put(m[1..], k, a);
      PutTwice(m[1..], k, a, b);
    }
  }

  lemma PutInTwice(resp: Entries, s: string, k: string, a: Json, b: Json)
    ensures PutIn(PutIn(resp, s, k, a), s, k, b) == PutIn(resp, s, k, b)
  {
    PutTwice(Section(resp, s), k, a, b);
    PutTwice(resp, s, JObj(Put(Section(resp, s), k, a)), JObj(Put(Section(resp, s), k, b)));
  }

  /** The body of the loop over `link_field_names`, for the field named n. */
  method PopLinkField(n: string, titles: map<string, string>, resp: Entries, ret: Entries)
    returns (r: Result<(Entries, Entries)>)
    ensures r == LinkStep(n, titles, resp, ret)
  {
    if n !in Keys(ret) {
      return Err(KeyError(n));
    }
    var val := Lookup(ret, n);
    var rest := Remove(ret, n);
    if val.JNull? {
      return Ok((resp, rest));
    }
    var linked := PutIn(resp, LinksFieldName, n, BuildLinkObject(val));
    if n !in titles {
      return Ok((linked, rest));
    }
    var contributor := titles[n];
    if contributor !in Keys(rest) {
      return Err(KeyError(contributor));
    }
    var title := Lookup(rest, contributor);
    var link := Lookup(Section(linked, LinksFieldName), n);
    if !link.JObj? {
      return Err(TypeError(n));
    }
    var titled := JObj(Put(link.entries, TitleProperty, title));
    PutInTwice(resp, LinksFieldName, n, link, titled);
    r := Ok((PutIn(linked, LinksFieldName, n, titled), Remove(rest, contributor)));
  }

  /** The loop over `link_field_names`, starting from an empty `resp`. */
  method PopLinkFields(names: seq<string>, titles: map<string, string>, ret: Entries)
    returns (r: Result<(Entries, Entries)>)
    ensures r == LinkPhase(names, titles, [], ret)
  {
    var resp: Entries, rest := [], ret;
    for i := 0 to |names|
      invariant LinkPhase(names, titles, [], ret) == LinkPhase(names[i..], titles, resp, rest)
    {
      assert names[i..][1..] == names[i + 1..];
      var step := PopLinkField(names[i], titles, resp, rest);
      if step.Err? {
        return Err(step.error);
      }
      resp, rest := step.value.0, step.value.1;
    }
    r := Ok((resp, rest));
  }

  /** The body of the loop over `embedded_field_names`, for the field named n. */
  method PopEmbeddedField(n: string, resp: Entries, ret: Entries) returns (r: Result<(Entries, Entries)>)
    ensures r == EmbedStep(n, resp, ret)
  {
    if n !in Keys(ret) {
      return Err(KeyError(n));
    }
    var child := Lookup(ret, n);
    var embedSelf;
    match child {
      case JList(items) =>
        embedSelf := JList(SelfLinks(items));
      case _ =>
        embedSelf := GetUrl(child);
    }
    var linked := resp;
    if Truthy(embedSelf) {
      linked := PutIn(resp, LinksFieldName, n, embedSelf);
    }
    r := Ok((PutIn(linked, EmbeddedFieldName, n, child), Remove(ret, n)));
  }

  /** The loop over `embedded_field_names`, continuing from the link loop's `resp` and `ret`. */
  method PopEmbeddedFields(names: seq<string>, resp: Entries, ret: Entries)
    returns (r: Result<(Entries, Entries)>)
    ensures r == EmbedPhase(names, resp, ret)
  {
    var sections, rest := resp, ret;
    for i := 0 to |names|
      invariant EmbedPhase(names, resp, ret) == EmbedPhase(names[i..], sections, rest)
    {
      assert names[i..][1..] == names[i + 1..];
      var step := PopEmbeddedField(names[i], sections, rest);
      if step.Err? {
        return Err(step.error);
      }
      sections, rest := step.value.0, step.value.1;
    }
    r := Ok((sections, rest));
  }

  class HalModelSerializer {
    var linkFieldNames: seq<string>
    var embeddedFieldNames: seq<string>
    var linkTitleFieldNames: map<string, string>

    /**
     * `__init__`: the data dict, when one is given (`data` is null for
     * DRF's `empty`), gets an empty `_links` if it has none.
     */
    constructor(data: Dict?)
      modifies data
      ensures data != null ==> data.entries == WithLinksPlaceholder(old(data.entries))
      ensures linkFieldNames == [] && embeddedFieldNames == [] && linkTitleFieldNames == map[]
    {
      linkFieldNames := [];
      embeddedFieldNames := [];
      linkTitleFieldNames := map[];
      new;
      if data != null && LinksFieldName !in Keys(data.entries) {
        data.entries := Put(data.entries, LinksFieldName, JObj([]));
      }
    }

    /** `get_fields`: one pass over the declared fields, filling the three buckets. */
    method GetFields(fields: seq<Field>)
      modifies this
      ensures linkFieldNames == LinkNames(fields)
      ensures embeddedFieldNames == EmbeddedNames(fields)
      ensures linkTitleFieldNames == TitleFieldNames(fields)
    {
      embeddedFieldNames := [];
      linkFieldNames := [];
      linkTitleFieldNames := map[];
      for i := 0 to |fields|
        invariant linkFieldNames == LinkNames(fields[..i])
        invariant embeddedFieldNames == EmbeddedNames(fields[..i])
        invariant linkTitleFieldNames == TitleFieldNames(fields[..i])
      {
        var field := fields[i];
        assert fields[..i + 1][..i] == fields[..i];
        if IsLinkField(field) {
          linkFieldNames := linkFieldNames + [field.name];
        }
        if IsLinkTitleField(field) {
          linkTitleFieldNames := linkTitleFieldNames[field.kind.target := field.name];
        } else if IsEmbeddedField(field) {
          embeddedFieldNames := embeddedFieldNames + [field.name];
        }
      }
      assert fields[..|fields|] == fields;
    }

    /**
     * `to_representation`, given DRF's flat field map `instanceData`: pops the
     * link fields into `_links` (with their contributed titles), the embedded
     * fields into `_embedded` (promoting their self links), and merges the
     * rest after them.
     */
    method ToRepresentation(instanceData: Entries) returns (r: Result<Entries>)
      ensures r == Render(linkFieldNames, linkTitleFieldNames, embeddedFieldNames, instanceData)
    {
      var linked :- PopLinkFields(linkFieldNames, linkTitleFieldNames, instanceData);
      var parts :- PopEmbeddedFields(embeddedFieldNames, linked.0, linked.1);
      r := Ok(Merge(parts.0, parts.1));
    }
  }
}
