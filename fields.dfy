/**
 * The HAL link fields of drf_hal_json/fields.py. DRF produces the URL of a
 * related or identity field and the absolute form of a URI; both arrive
 * here as plain values. A model instance is the map of its attribute
 * values, and keyword arguments are a map from keyword to value.
 */
module HalFields {
  import opened Json
  import HalSerializers

  type Kwargs = map<string, Json>
  type Instance = map<string, Json>

  const TitleField := "title_field"
  const TemplatedField := "templated_field"
  const TypeField := "type_field"
  const DeprecationField := "deprecation_field"
  const NameField := "name_field"

  /** The five keywords a related or identity field pops before calling DRF. */
  const OptionKeywords: set<string> := {TitleField, TemplatedField, TypeField, DeprecationField, NameField}

  /**
   * The attribute names configured for the optional link properties; JNull
   * stands for the default None.
   */
  datatype LinkOptions = LinkOptions(
    titleField: Json,
    templatedField: Json,
    typeField: Json,
    deprecationField: Json,
    nameField: Json)

  /**
   * `kwargs.pop(k, default)`: the value of k, or the default when k is not
   * given, and the keywords without k.
   */
  function Pop(kwargs: Kwargs, k: string, default: Json): (Json, Kwargs) {
    (if k in kwargs then kwargs[k] else default, kwargs - {k})
  }

  /**
   * A pop leaves no k behind; putting the popped value back restores the
   * keywords, and popping an absent k returns the default and changes
   * nothing.
   */
  lemma PopPutBack(kwargs: Kwargs, k: string, default: Json)
    ensures var r := Pop(kwargs, k, default);
      && k !in r.1
      && (k in kwargs ==> r.1[k := r.0] == kwargs)
      && (k !in kwargs ==> r == (default, kwargs))
  {
    var r := Pop(kwargs, k, default);
    if k !in kwargs {
      assert r.1 == kwargs;
    } else {
      assert r.1[k := r.0] == kwargs;
    }
  }

  /** What `__init__` pops: each option, None when not given. */
  function LinkOptionsOf(kwargs: Kwargs): (o: LinkOptions)
    ensures (forall k | k in OptionKeywords :: k !in kwargs) ==>
      o == LinkOptions(JNull, JNull, JNull, JNull, JNull)
  {
    LinkOptions(Pop(kwargs, TitleField, JNull).0, Pop(kwargs, TemplatedField, JNull).0,
      Pop(kwargs, TypeField, JNull).0, Pop(kwargs, DeprecationField, JNull).0, Pop(kwargs, NameField, JNull).0)
  }

  /**
   * The link properties in the order `to_representation` considers them,
   * each with the attribute configured for it.
   */
  function Slots(o: LinkOptions): (r: seq<(string, Json)>)
    ensures |r| == 5
    ensures forall i, j | 0 <= i < j < 5 :: r[i].0 != r[j].0
    ensures forall i | 0 <= i < 5 :: r[i].0 != HalSerializers.HrefProperty
  {
    [("title", o.titleField), ("templated", o.templatedField), ("type", o.typeField),
     ("deprecation", o.deprecationField), ("name", o.nameField)]
  }

  /**
   * One conditional insertion: when the configured attribute name is truthy
   * and the instance's attribute of that name is truthy, the property takes
   * the attribute's value. Looking the attribute up raises TypeError for a
   * name that is not a string and AttributeError for a missing attribute.
   */
  function WithProperty(val: Entries, property: string, attr: Json, instance: Instance): Result<Entries> {
    if !Truthy(attr) then Ok(val)
    else if !attr.JStr? then Err(TypeError(property))
    else if attr.s !in instance then Err(AttributeError(attr.s))
    else if Truthy(instance[attr.s]) then Ok(Put(val, property, instance[attr.s]))
    else Ok(val)
  }

  /** The conditional insertions, one slot after the other. */
  function Decorate(val: Entries, slots: seq<(string, Json)>, instance: Instance): Result<Entries>
    decreases |slots|
  {
    if slots == [] then Ok(val)
    else
      match WithProperty(val, slots[0].0, slots[0].1, instance)
      case Err(e) => Err(e)
      case Ok(v) => Decorate(v, slots[1..], instance)
  }

  /** The link object a related or identity field renders for URL `href`. */
  function LinkObject(o: LinkOptions, href: Json, instance: Instance): Result<Entries> {
    Decorate([(HalSerializers.HrefProperty, href)], Slots(o), instance)
  }

  /** `getattr(instance, attr)` succeeds for an attribute that gets looked up. */
  predicate Resolvable(attr: Json, instance: Instance) {
    Truthy(attr) ==> attr.JStr? && attr.s in instance
  }

  /** The slot is written: its attribute is configured and its value truthy. */
  predicate Emitted(attr: Json, instance: Instance) {
    Truthy(attr) && attr.JStr? && attr.s in instance && Truthy(instance[attr.s])
  }

  /** The properties written, in slot order. */
  function EmittedProperties(slots: seq<(string, Json)>, instance: Instance): seq<string>
    decreases |slots|
  {
    if slots == [] then []
    else
      (if Emitted(slots[0].1, instance) then [slots[0].0] else [])
      + EmittedProperties(slots[1..], instance)
  }

  /**
   * One conditional insertion, as the source writes it inside
   * `to_representation`.
   */
  method AddProperty(val: Entries, property: string, attr: Json, instance: Instance)
    returns (r: Result<Entries>)
    ensures r == WithProperty(val, property, attr, instance)
  {
    r := Ok(val);
    if Truthy(attr) {
      if !attr.JStr? {
        return Err(TypeError(property));
      }
      if attr.s !in instance {
        return Err(AttributeError(attr.s));
      }
      var value := instance[attr.s];
      if Truthy(value) {
        r := Ok(Put(val, property, value));
      }
    }
  }

  /**
   * The body both field classes share: start from `{'href': url}` and add
   * title, templated, type, deprecation and name in turn.
   */
  method AssembleLink(o: LinkOptions, href: Json, instance: Instance) returns (r: Result<Entries>)
    ensures r == LinkObject(o, href, instance)
  {
    var slots := Slots(o);
    ghost var whole := LinkObject(o, href, instance);
    var val := [(HalSerializers.HrefProperty, href)];
    assert whole == Decorate(val, slots[0..], instance);
    r := AddProperty(val, "title", o.titleField, instance);
    if r.Err? { return; }
    val := r.value;
    assert whole == Decorate(val, slots[1..], instance);
    r := AddProperty(val, "templated", o.templatedField, instance);
    if r.Err? { return; }
    val := r.value;
    assert whole == Decorate(val, slots[2..], instance);
    r := AddProperty(val, "type", o.typeField, instance);
    if r.Err? { return; }
    val := r.value;
    assert whole == Decorate(val, slots[3..], instance);
    r := AddProperty(val, "deprecation", o.deprecationField, instance);
    if r.Err? { return; }
    val := r.value;
    assert whole == Decorate(val, slots[4..], instance);
    r := AddProperty(val, "name", o.nameField, instance);
    if r.Err? { return; }
    assert whole == Decorate(r.value, slots[5..], instance);
  }

  class HalHyperlinkedRelatedField {
    var options: LinkOptions
    /** The keyword arguments left for DRF's HyperlinkedRelatedField. */
    var superKwargs: Kwargs

    constructor(kwargs: Kwargs)
      ensures options == LinkOptionsOf(kwargs)
      ensures superKwargs == kwargs - OptionKeywords
    {
      var (title, kw1) := Pop(kwargs, TitleField, JNull);
      var (templated, kw2) := Pop(kw1, TemplatedField, JNull);
      var (typ, kw3) := Pop(kw2, TypeField, JNull);
      var (deprecation, kw4) := Pop(kw3, DeprecationField, JNull);
      var (name, kw5) := Pop(kw4, NameField, JNull);
      options := LinkOptions(title, templated, typ, deprecation, name);
      superKwargs := kw5;
    }

    /** `to_representation`, given the URL DRF builds for the instance. */
    method ToRepresentation(url: Json, instance: Instance) returns (r: Result<Entries>)
      ensures r == LinkObject(options, url, instance)
    {
      r := AssembleLink(options, url, instance);
    }
  }

  class HalHyperlinkedIdentityField {
    var options: LinkOptions
    /** The keyword arguments left for DRF's HyperlinkedIdentityField. */
    var superKwargs: Kwargs

    constructor(kwargs: Kwargs)
      ensures options == LinkOptionsOf(kwargs)
      ensures superKwargs == kwargs - OptionKeywords
    {
      var (title, kw1) := Pop(kwargs, TitleField, JNull);
      var (templated, kw2) := Pop(kw1, TemplatedField, JNull);
      var (typ, kw3) := Pop(kw2, TypeField, JNull);
      var (deprecation, kw4) := Pop(kw3, DeprecationField, JNull);
      var (name, kw5) := Pop(kw4, NameField, JNull);
      options := LinkOptions(title, templated, typ, deprecation, name);
      superKwargs := kw5;
    }

    /** `to_representation`, given the URL DRF builds for the instance itself. */
    method ToRepresentation(url: Json, instance: Instance) returns (r: Result<Entries>)
      ensures r == LinkObject(options, url, instance)
    {
      r := AssembleLink(options, url, instance);
    }
  }

  // ---------------------------------------------------------------------
  // The other fields
  // ---------------------------------------------------------------------

  /** `HalHyperlinkedSerializerMethodField.to_representation`: the method's value as `{'href': v}`. */
  function MethodFieldLink(v: Json): (r: Json)
    ensures r.JObj? && Keys(r.entries) == [HalSerializers.HrefProperty]
    ensures Get(r.entries, HalSerializers.HrefProperty) == Some(v)
  {
    JObj([(HalSerializers.HrefProperty, v)])
  }

  /** The options of `HalContributeToLinkField`, and the keywords left for SerializerMethodField. */
  datatype ContributeOptions = ContributeOptions(propertyName: Json, placeOn: Json, rest: Kwargs)

  /**
   * `HalContributeToLinkField.__init__`: `property_name` defaults to
   * 'title', and a missing `place_on` raises KeyError.
   */
  function ContributeOptionsOf(kwargs: Kwargs): (r: Result<ContributeOptions>)
    ensures r.Err? <==> "place_on" !in kwargs
    ensures r.Err? ==> r.error == KeyError("place_on")
    ensures r.Ok? ==>
      && r.value.placeOn == kwargs["place_on"]
      && r.value.propertyName == (if "property_name" in kwargs then kwargs["property_name"] else JStr("title"))
      && r.value.rest == kwargs - {"property_name", "place_on"}
  {
    var (propertyName, kw) := Pop(kwargs, "property_name", JStr("title"));
    if "place_on" !in kw then Err(KeyError("place_on"))
    else Ok(ContributeOptions(propertyName, kw["place_on"], kw - {"place_on"}))
  }

  /** DRF's Hyperlink: a URL string that also carries a link name. */
  datatype Hyperlink = Hyperlink(url: Json, name: Json)

  /**
   * `HalHyperlinkedPropertyField`: `process_value` is an optional function
   * given at construction; the request's `build_absolute_uri` is present
   * when the serializer context holds a request.
   */
  class HalHyperlinkedPropertyField {
    var processValue: Option<Json -> Json>

    constructor(processValue: Option<Json -> Json>)
      ensures this.processValue == processValue
    {
      this.processValue := processValue;
    }

    function ToRepresentation(obj: Json, absoluteUri: Option<Json -> Json>): (r: Hyperlink)
      reads this
      ensures r.url == r.name
      ensures processValue.None? && absoluteUri.None? ==> r.url == obj
    {
      var val := if processValue.Some? then processValue.value(obj) else obj;
      var val := if absoluteUri.Some? then absoluteUri.value(val) else val;
      Hyperlink(val, val)
    }
  }

  // ---------------------------------------------------------------------
  // Properties of the link objects
  // ---------------------------------------------------------------------

  /** Slot names that differ from each other and from every key already in `val`. */
  predicate FreshSlots(val: Entries, slots: seq<(string, Json)>) {
    && (forall i, j | 0 <= i < j < |slots| :: slots[i].0 != slots[j].0)
    && (forall i | 0 <= i < |slots| :: slots[i].0 !in Keys(val))
  }

  lemma {:induction false} DecorateSucceeds(val: Entries, slots: seq<(string, Json)>, instance: Instance)
    ensures Decorate(val, slots, instance).Ok? <==> forall i | 0 <= i < |slots| :: Resolvable(slots[i].1, instance)
    decreases |slots|
  {
    if slots != [] {
      var w := WithProperty(val, slots[0].0, slots[0].1, instance);
      if w.Ok? {
        DecorateSucceeds(w.value, slots[1..], instance);
        assert forall i | 1 <= i < |slots| :: slots[i] == slots[1..][i - 1];
      }
    }
  }

  /**
   * The decorated dict: the keys of `val` keep their values, each slot's
   * property holds the attribute's value exactly when emitted, and the new
   * keys follow the old ones in slot order.
   */
  lemma {:induction false} DecorateFields(val: Entries, slots: seq<(string, Json)>, instance: Instance)
    requires FreshSlots(val, slots)
    requires Decorate(val, slots, instance).Ok?
    ensures var r := Decorate(val, slots, instance).value;
      && Keys(r) == Keys(val) + EmittedProperties(slots, instance)
      && (forall k | k in Keys(val) :: Get(r, k) == Get(val, k))
      && (forall i | 0 <= i < |slots| ::
            Get(r, slots[i].0) == if Emitted(slots[i].1, instance) then Some(instance[slots[i].1.s]) else None)
    decreases |slots|
  {
    if slots != [] {
      var p := slots[0].0;
      var next := WithProperty(val, p, slots[0].1, instance).value;
      var tail := slots[1..];
      assert Keys(next) == Keys(val) + (if Emitted(slots[0].1, instance) then [p] else []);
      assert forall i | 0 <= i < |tail| :: tail[i] == slots[i + 1];
      assert FreshSlots(next, tail);
      DecorateFields(next, tail, instance);
      var r := Decorate(val, slots, instance).value;
      assert Get(next, p) == if Emitted(slots[0].1, instance) then Some(instance[slots[0].1.s]) else None;
      forall i | 0 <= i < |slots|
        ensures Get(r, slots[i].0) == if Emitted(slots[i].1, instance) then Some(instance[slots[i].1.s]) else None
      {
        if i > 0 {
          assert slots[i] == tail[i - 1];
        } else if !Emitted(slots[0].1, instance) && p in EmittedProperties(tail, instance) {
          EmittedWithin(tail, instance, p);
        }
      }
      ConcatAssoc(Keys(val), if Emitted(slots[0].1, instance) then [p] else [], EmittedProperties(tail, instance));
    }
  }

  lemma {:induction false} EmittedWithin(slots: seq<(string, Json)>, instance: Instance, k: string)
    requires k in EmittedProperties(slots, instance)
    ensures exists i | 0 <= i < |slots| :: slots[i].0 == k && Emitted(slots[i].1, instance)
    decreases |slots|
  {
    if !(Emitted(slots[0].1, instance) && slots[0].0 == k) {
      EmittedWithin(slots[1..], instance, k);
      var i :| 0 <= i < |slots[1..]| && slots[1..][i].0 == k && Emitted(slots[1..][i].1, instance);
      assert slots[i + 1] == slots[1..][i];
    }
  }

  /**
   * A related or identity field raises exactly when a configured attribute
   * name is not a string or names a missing attribute.
   */
  lemma LinkObjectSucceeds(o: LinkOptions, href: Json, instance: Instance)
    ensures LinkObject(o, href, instance).Ok?
        <==> forall i | 0 <= i < 5 :: Resolvable(Slots(o)[i].1, instance)
  {
    DecorateSucceeds([(HalSerializers.HrefProperty, href)], Slots(o), instance);
  }

  /**
   * The rendered link object: `href` first with the URL, then title,
   * templated, type, deprecation and name, each present exactly when its
   * attribute is configured and truthy on the instance, holding that value;
   * no other key.
   */
  lemma LinkObjectShape(o: LinkOptions, href: Json, instance: Instance)
    requires LinkObject(o, href, instance).Ok?
    ensures var r := LinkObject(o, href, instance).value;
      && Keys(r) == [HalSerializers.HrefProperty] + EmittedProperties(Slots(o), instance)
      && Get(r, HalSerializers.HrefProperty) == Some(href)
      && (forall i | 0 <= i < 5 ::
            Get(r, Slots(o)[i].0) == if Emitted(Slots(o)[i].1, instance) then Some(instance[Slots(o)[i].1.s]) else None)
      && (forall k | k in Keys(r) :: k == HalSerializers.HrefProperty || exists i | 0 <= i < 5 :: Slots(o)[i].0 == k)
  {
    var val := [(HalSerializers.HrefProperty, href)];
    assert Keys(val) == [HalSerializers.HrefProperty];
    DecorateFields(val, Slots(o), instance);
    var r := LinkObject(o, href, instance).value;
    forall k | k in Keys(r) && k != HalSerializers.HrefProperty
      ensures exists i | 0 <= i < 5 :: Slots(o)[i].0 == k
    {
      EmittedWithin(Slots(o), instance, k);
    }
  }

  /** With no option configured (the defaults), the link object is exactly `{'href': url}`. */
  lemma UnconfiguredLink(kwargs: Kwargs, href: Json, instance: Instance)
    requires forall k | k in OptionKeywords :: k !in kwargs
    ensures LinkObject(LinkOptionsOf(kwargs), href, instance) == Ok([(HalSerializers.HrefProperty, href)])
  {
    var o := LinkOptionsOf(kwargs);
    LinkObjectSucceeds(o, href, instance);
    LinkObjectShape(o, href, instance);
    var r := LinkObject(o, href, instance).value;
    assert EmittedProperties(Slots(o), instance) == [];
    assert Keys(r) == [HalSerializers.HrefProperty];
  }

  /**
   * A `{'href': v}` value passes through `build_link_object` unchanged when
   * v is truthy, and is wrapped once more otherwise. (The method field's own
   * value never reaches `build_link_object`: the serializer does not class
   * it as a link field.)
   */
  lemma MethodFieldLinkRebuilt(v: Json)
    ensures Truthy(v) ==> HalSerializers.BuildLinkObject(MethodFieldLink(v)) == MethodFieldLink(v)
    ensures !Truthy(v) ==>
      HalSerializers.BuildLinkObject(MethodFieldLink(v)) == JObj([(HalSerializers.HrefProperty, MethodFieldLink(v))])
  {
    assert Get(MethodFieldLink(v).entries, HalSerializers.HrefProperty) == Some(v);
  }

  /**
   * The request's absolutisation is applied to the value `process_value`
   * produced: with a request, the URL is the absolute form of the URL
   * rendered without one.
   */
  lemma PropertyFieldAbsolutized(field: HalHyperlinkedPropertyField, obj: Json, absoluteUri: Json -> Json)
    ensures field.ToRepresentation(obj, Some(absoluteUri)).url == absoluteUri(field.ToRepresentation(obj, None).url)
    ensures field.processValue.Some? ==> field.ToRepresentation(obj, None).url == field.processValue.value(obj)
  {
  }
}
