# drf-hal-json in Dafny

A model of the HAL rendering core of drf-hal-json. The package sits on top of Django REST Framework (DRF). DRF produces a flat, ordered map from field name to value for one object. drf-hal-json turns that map into a HAL document (JSON Hypertext Application Language, draft-kelly-json-hal-08): a `_links` object, an `_embedded` object, and the remaining plain attributes. The model also covers the link objects that the package's relation fields render, and the envelopes of its two paginators.

Values are JSON-like trees (`Json.Json`). A Python dict is an ordered sequence of key/value pairs, and `Get`, `Put`, `Remove` and `Merge` play `d.get`, `d[k] = v`, `d.pop` and `dict(a, **b)`. Exceptions that escape the code become `Err` values of a `Result`:
- `KeyError` from `pop` or `[]` on a missing key;
- `TypeError` from setting `'title'` on a list link, or from `getattr` with a name that is not a string;
- `AttributeError` from `getattr` on a missing attribute.

The modules:
- `Json` defines the value tree and the ordered-dict operations.
- `HalSerializers` covers `drf_hal_json/serializers.py`:
  - the field classification as a `FieldKind` tag: `Link`, `TitleContributor(target)`, `Embedded` or `Plain`;
  - `build_link_object` and `_get_url`;
  - the serializer class. `GetFields` is a loop proved equal to the specification functions `LinkNames`/`EmbeddedNames`/`TitleFieldNames`. `ToRepresentation` runs the two pop loops (`PopLinkFields`, `PopEmbeddedFields`, each proved equal to its loop's specification function) and is proved equal to `Render`.
- `RenderProperties`, `FieldBuckets` and `LinkObjectProperties` prove what those specification functions guarantee:
  - where every link, contributed title, embedded child and plain attribute ends up;
  - when rendering raises;
  - the key order;
  - that `get_fields` yields buckets on which all of this holds.
- `HalFields` covers `drf_hal_json/fields.py`: the related and identity fields' link objects, the serializer-method link, the contribute-to-link options and the hyperlinked property field.
- `HalPagination` covers `drf_hal_json/pagination.py`.

The constants `_links`, `_embedded` and `self` are fixed here. They come from `drf_hal_json/__init__.py` and DRF's `URL_FIELD_NAME` setting, which are not part of this model.

Where the code and the package's tests disagree, the model follows the code:
- `serializers.py:4` imports `ContributeTitleField` and `HyperlinkedPropertyField`, and line 72 reads `field.title_for`. `fields.py` defines `HalContributeToLinkField` (with `place_on`/`property_name`) and `HalHyperlinkedPropertyField` instead. The serializer is modelled as written: a contributor names its target link, and the property it sets is always `title` (serializers.py:45).
- Contributed titles are written even when the value is None. The tests expect None to be suppressed and the property name to be configurable (tests/testproject/tests.py:181-194).
- The contributor of a None link is not consumed: it stays among the plain attributes (`ContributedTitle`).
- A contribution to a list link raises TypeError; it is not applied to every element.
- An embedded list whose truthy children lack self links still gets a `_links` entry, a list of None values (`PromotedListHoldsNone`). tests/testproject/tests.py:88-91 expects no entry.
- `HalHyperlinkedSerializerMethodField` is a `SerializerMethodField`, which `_is_link_field` (serializers.py:78-84) does not accept. Its `{'href': v}` value therefore stays a plain attribute and never reaches `_links`; tests/testproject/tests.py:199-201 expect it under `_links`. Separately, `build_link_object` wraps a link value `{'href': v}` with a falsy v once more, as `{'href': {'href': v}}`, whose href is then truthy, so a further pass leaves it unchanged (`BuildLinkObjectIdempotent`, `MethodFieldLinkRebuilt`).
- File and image fields are link fields (serializers.py:83-84). tests/testproject/tests.py:179 expects a plain FileField to stay out of `_links`.
- Both paginators always write `next` and `previous`, possibly None, as plain values rather than `{'href': ...}` objects. Neither emits a templated `page` link. The tests expect absent keys (tests/testproject/tests.py:143-144).

## Model

| member | source | states |
|---|---|---|
| Json.Remove | drf_hal_json/serializers.py:41 | popping a key removes it, leaves every other key's value alone, adds no key and keeps keys distinct |
| Json.RemoveKeyOrder | drf_hal_json/serializers.py:41 | the keys left after a pop are the old keys, in their order, without the popped one |
| Json.Put | drf_hal_json/serializers.py:43 | assignment sets the key's value and leaves other keys alone; a new key goes last, an existing key keeps its position |
| Json.Merge | drf_hal_json/serializers.py:58 | `dict(resp, **ret)` gives each key ret's value if ret has it, else resp's; with disjoint key sets its keys are resp's keys followed by ret's |
| HalSerializers.BuildLinkObject | drf_hal_json/serializers.py:23-28 | a list builds to a list of the same length and a non-list to a non-list; every result is link-shaped (a dict with `href`, or a list of such) |
| HalSerializers.GetUrl | drf_hal_json/serializers.py:30-34 | a non-None result comes from a dict with `_links`; when `_links` is a dict holding `self`, the result is that value |
| HalSerializers.SelfLinks | drf_hal_json/serializers.py:51 | at most one self link per child, and a non-empty list exactly when some child is truthy |
| HalSerializers.PutIn | drf_hal_json/serializers.py:43 | writing into a defaultdict section updates that section at the key and no other section |
| HalSerializers.WithLinksPlaceholder | drf_hal_json/serializers.py:20-21 | the data always ends up with `_links`; data that had one is unchanged; otherwise an empty `_links` is appended and the other keys keep their values |
| HalSerializers.HalModelSerializer.constructor | drf_hal_json/serializers.py:17-21 | given data gets the `_links` placeholder; no data is left alone |
| HalSerializers.HalModelSerializer.GetFields | drf_hal_json/serializers.py:61-75 | the loop leaves the three buckets equal to the link names, the embedded names (contributors excluded by the `elif`) and the target-to-contributor map |
| HalSerializers.PopLinkField | drf_hal_json/serializers.py:41-45 | one link iteration pops the value, builds and stores the link when it is not None, and pops its contributor into `title`, raising KeyError or TypeError exactly as `LinkStep` |
| HalSerializers.PopLinkFields | drf_hal_json/serializers.py:38-45 | the link loop from an empty `resp` returns exactly `LinkPhase`, stopping at the first raised error |
| HalSerializers.PopEmbeddedField | drf_hal_json/serializers.py:50-56 | one embedded iteration promotes the truthy self link and moves the child to `_embedded`, raising KeyError exactly as `EmbedStep` |
| HalSerializers.PopEmbeddedFields | drf_hal_json/serializers.py:47-56 | the embedded loop returns exactly `EmbedPhase`, stopping at the first raised error |
| HalSerializers.HalModelSerializer.ToRepresentation | drf_hal_json/serializers.py:36-59 | the two pop loops and the merge return exactly `Render` of the buckets and DRF's map, errors included |
| FieldBuckets.SelectedMembers | drf_hal_json/serializers.py:68-74 | a name is in a bucket iff some declared field of that name passes the bucket's test |
| FieldBuckets.SelectedAppend | drf_hal_json/serializers.py:68-74 | buckets keep declaration order: classifying a concatenation concatenates the buckets |
| FieldBuckets.SelectedNoDup | drf_hal_json/serializers.py:68-74 | distinct field names give a bucket without repeats |
| FieldBuckets.TitleFieldNamesSource | drf_hal_json/serializers.py:71-72 | a link has a contributor iff some field contributes to it, and the recorded one is the last such field |
| FieldBuckets.TitleFieldOf | drf_hal_json/serializers.py:71-72 | a recorded contributor is a declared contributor field of that target |
| FieldBuckets.BucketsWellFormed | drf_hal_json/serializers.py:61-75 | with distinct field names, links and embedded names are disjoint and repeat-free, and contributors are distinct, never links and never embedded |
| RenderProperties.ConsumedAreContributors | drf_hal_json/serializers.py:44-45 | every popped contributor belongs to a non-None link that has it as contributor |
| RenderProperties.ConsumedIncludes | drf_hal_json/serializers.py:44-45 | the contributor of every non-None link is popped |
| RenderProperties.LinkStepFrame | drf_hal_json/serializers.py:40-45 | one link iteration touches only `_links[name]`, pops the name, adds no key, keeps sections well formed |
| RenderProperties.LinkPhaseFrame | drf_hal_json/serializers.py:40-45 | the link loop writes only `_links` entries of link names, pops every link name and adds no key |
| RenderProperties.LinkStepKeeps | drf_hal_json/serializers.py:41-45 | one link iteration leaves other keys alone, except the contributor of that link |
| RenderProperties.LinkPhaseKeepsRet | drf_hal_json/serializers.py:40-45 | after the link loop, keys that are neither links nor consumed contributors keep their values, and consumed contributors are gone |
| RenderProperties.LinkPhaseWrites | drf_hal_json/serializers.py:40-45 | a None link writes nothing; another link gets its built object, with the contributor's value as `title` when it has one |
| RenderProperties.LinkStepSucceeds | drf_hal_json/serializers.py:41-45 | one link iteration raises iff the link is missing, or it is non-None with a contributor that is missing or set on a list |
| RenderProperties.LinkPhaseSucceeds | drf_hal_json/serializers.py:40-45 | the link loop raises iff some link iteration would |
| RenderProperties.LinkStepOrder | drf_hal_json/serializers.py:41-45 | one link iteration appends its name to `_links` iff the value is not None |
| RenderProperties.LinkPhaseOrder | drf_hal_json/serializers.py:40-45 | the link loop appends the non-None link names to `_links` in declaration order |
| RenderProperties.LinkPhaseKeyOrder | drf_hal_json/serializers.py:40-45 | the link loop leaves DRF's keys in their order, less the link names and the contributors it popped |
| RenderProperties.EmbedStepRet | drf_hal_json/serializers.py:50-56 | one embedded iteration raises iff the name is missing, and otherwise pops exactly that name |
| RenderProperties.EmbedStepSections | drf_hal_json/serializers.py:50-56 | one embedded iteration stores the child under `_embedded` and its self link under `_links` iff truthy |
| RenderProperties.EmbedPhaseFrame | drf_hal_json/serializers.py:47-56 | the embedded loop touches only its own names in either section, pops them all and adds no key |
| RenderProperties.EmbedPhaseWrites | drf_hal_json/serializers.py:47-56 | each embedded child is stored verbatim, and its self link is stored iff truthy |
| RenderProperties.EmbedPhaseSucceeds | drf_hal_json/serializers.py:47-56 | the embedded loop raises iff an embedded name is missing |
| RenderProperties.EmbedPhaseOrder | drf_hal_json/serializers.py:47-56 | the embedded loop appends all its names to `_embedded` and the promoted ones to `_links`, in order |
| RenderProperties.EmbedPhaseKeyOrder | drf_hal_json/serializers.py:47-56 | the embedded loop leaves the remaining keys in their order, less the embedded names |
| RenderProperties.EmbedPhaseTopKeysPrefix | drf_hal_json/serializers.py:47-56 | the embedded loop never moves a section already in `resp`; new sections are only appended |
| RenderProperties.EmbeddedValuesAfterLinks | drf_hal_json/serializers.py:40-50 | the link loop leaves every embedded field's value as DRF produced it |
| RenderProperties.RenderSucceeds | drf_hal_json/serializers.py:36-59 | rendering raises iff a link or embedded field is missing, or a non-None link with a contributor lacks it or is a list |
| RenderProperties.RenderedLinkField | drf_hal_json/serializers.py:40-45 | in the rendered parts a None link is absent from `_links`; otherwise it holds the built object (titled when contributed); a link is never a plain attribute |
| RenderProperties.PlainAttributes | drf_hal_json/serializers.py:40-58 | the plain attributes are exactly the keys that are neither links, embedded fields nor contributors of non-None links, unchanged |
| RenderProperties.ContributedTitle | drf_hal_json/serializers.py:44-45 | the contributor of a None link stays a plain attribute unchanged; that of a non-None link is removed |
| RenderProperties.RenderedEmbeddedField | drf_hal_json/serializers.py:47-56 | every embedded child is under `_embedded` verbatim, its self link in `_links` iff truthy, and it is not a plain attribute |
| RenderProperties.SectionPresent | drf_hal_json/serializers.py:38 | in a sectioned `resp`, a section key is present iff that section is non-empty (the defaultdict invariant the render lemmas use) |
| RenderProperties.SectionsAfterLinks | drf_hal_json/serializers.py:38-45 | after the link loop `_links` lists the non-None links and `_embedded` is empty |
| RenderProperties.RenderSectionOrder | drf_hal_json/serializers.py:38-56 | `_links` keys are the non-None links then the promoted embedded names; `_embedded` keys are all embedded names, in order |
| RenderProperties.RenderLayout | drf_hal_json/serializers.py:38-56 | the sections hold distinct keys; `_links` exists iff an entry was written, `_embedded` iff an embedded field exists |
| RenderProperties.RenderTopKeyOrder | drf_hal_json/serializers.py:38-56 | `_links` comes before `_embedded` iff a link was not None or the first embedded field was promoted; otherwise `_embedded` leads and `_links` follows iff a later embedded field was promoted |
| RenderProperties.PlainAttributeOrder | drf_hal_json/serializers.py:36-58 | the plain attributes are DRF's keys in DRF's order, less the link names, the popped contributors and the embedded names |
| RenderProperties.RenderedDocument | drf_hal_json/serializers.py:58 | the document lists the sections then the plain attributes, without repeats, each with its part's value; the plain attributes keep DRF's order, less the link names, popped contributors and embedded names |
| RenderProperties.SelfLinkOfRendered | drf_hal_json/serializers.py:30-59 | a parent embedding the rendered document promotes exactly the built link of the document's own URL field, with the contributed title added when the URL field has a title contributor |
| LinkObjectProperties.BuildLinkObjectFixpoint | drf_hal_json/serializers.py:23-28 | building returns the value unchanged iff it is a dict with a truthy `href` or a list of such |
| LinkObjectProperties.BuildLinkObjectSettles | drf_hal_json/serializers.py:23-28 | the built value is settled iff no leaf wraps a falsy value |
| LinkObjectProperties.BuildLinkObjectIdempotent | drf_hal_json/serializers.py:23-28 | building twice equals building once iff no falsy leaf is wrapped: `0`, `{}` or `""` is wrapped again, while `{'href': None}` is wrapped once to `{'href': {'href': None}}` and then stays stable |
| LinkObjectProperties.BuildLinkObjectConcat | drf_hal_json/serializers.py:24-25 | list links are built element-wise, in order |
| LinkObjectProperties.EmbedSelfOfChild | drf_hal_json/serializers.py:53-54 | a single child is promoted iff it is a dict whose `_links` dict has a truthy `self` |
| LinkObjectProperties.EmbedSelfOfList | drf_hal_json/serializers.py:51-54 | a child list is promoted iff some child is truthy, with at most one entry per child |
| LinkObjectProperties.SelfLinksFromChildren | drf_hal_json/serializers.py:51 | every promoted entry is the self link of a truthy child |
| LinkObjectProperties.PromotedListHoldsNone | drf_hal_json/serializers.py:51-55 | a truthy child without a self link makes the list promoted and puts None into it |
| LinkObjectProperties.GetUrlNone | drf_hal_json/serializers.py:30-34 | non-dicts, dicts without `_links`, non-dict `_links` and `_links` without `self` give None |
| HalFields.PopPutBack | drf_hal_json/fields.py:55-59 | popping leaves keywords without the key; when the key was given, putting the popped value back restores the keywords; when it was not, the default comes back and the keywords are unchanged |
| HalFields.LinkOptionsOf | drf_hal_json/fields.py:54-60 | without any of the five keywords, every option is None |
| HalFields.Slots | drf_hal_json/fields.py:65-78 | the five properties are distinct and never `href` |
| HalFields.AddProperty | drf_hal_json/fields.py:65-66 | one conditional insertion equals `WithProperty`, errors included |
| HalFields.AssembleLink | drf_hal_json/fields.py:62-80 | the five successive insertions produce exactly `LinkObject` |
| HalFields.HalHyperlinkedRelatedField.constructor | drf_hal_json/fields.py:54-60 | the five options are popped with None defaults, and the other keywords go to DRF |
| HalFields.HalHyperlinkedRelatedField.ToRepresentation | drf_hal_json/fields.py:62-80 | the rendered value is `LinkObject` of the options and DRF's URL |
| HalFields.HalHyperlinkedIdentityField.constructor | drf_hal_json/fields.py:85-91 | the five options are popped with None defaults, and the other keywords go to DRF |
| HalFields.HalHyperlinkedIdentityField.ToRepresentation | drf_hal_json/fields.py:93-111 | the rendered value is `LinkObject` of the options and DRF's URL |
| HalFields.DecorateSucceeds | drf_hal_json/fields.py:62-80 | the insertions raise iff a configured attribute name is not a string or names a missing attribute |
| HalFields.DecorateFields | drf_hal_json/fields.py:62-80 | the insertions keep existing keys, set each property iff emitted, and append new keys in slot order |
| HalFields.EmittedWithin | drf_hal_json/fields.py:62-80 | only configured slots with truthy attributes are emitted |
| HalFields.LinkObjectSucceeds | drf_hal_json/fields.py:62-80 | a related or identity field raises iff a configured attribute cannot be looked up |
| HalFields.LinkObjectShape | drf_hal_json/fields.py:62-80 | `href` comes first with the URL; each optional property is present iff configured and truthy, with the attribute's value; there are no other keys |
| HalFields.UnconfiguredLink | drf_hal_json/fields.py:54-60 | a field built without the five keywords renders exactly `{'href': url}` |
| HalFields.MethodFieldLink | drf_hal_json/fields.py:36-37 | the method field renders a one-key dict whose `href` is the method's value, None included |
| HalFields.MethodFieldLinkRebuilt | drf_hal_json/serializers.py:23-28 | `build_link_object` applied to a `{'href': v}` value returns it unchanged when v is truthy and wraps it once more otherwise |
| HalFields.ContributeOptionsOf | drf_hal_json/fields.py:46-49 | a missing `place_on` raises KeyError; `property_name` defaults to `'title'`; both are removed from the keywords |
| HalFields.HalHyperlinkedPropertyField.constructor | drf_hal_json/fields.py:17-20 | the field keeps the given `process_value` |
| HalFields.HalHyperlinkedPropertyField.ToRepresentation | drf_hal_json/fields.py:22-26 | the Hyperlink's URL and name are equal; without `process_value` and request the URL is the value itself |
| HalFields.PropertyFieldAbsolutized | drf_hal_json/fields.py:22-26 | with a request, the URL is the absolute form of the URL without one, and `process_value` is applied first |
| HalPagination.BuildLinks | drf_hal_json/pagination.py:13-16 | `_links` has exactly self, next and previous in that order, holding the given values, None included |
| HalPagination.HalPageNumberPagination.constructor | drf_hal_json/pagination.py:11-21 | the paginator holds the request URI, next and previous links, count and page size it was given |
| HalPagination.HalPageNumberPagination.GetPaginatedResponse | drf_hal_json/pagination.py:11-21 | keys are `_links`, `count`, `page_size`, `_embedded` in that order; the links are the request URI, next and previous; `_embedded` is exactly `{'items': data}` |
| HalPagination.HalCursorPagination.constructor | drf_hal_json/pagination.py:25-33 | the paginator holds the base URL, next and previous links it was given |
| HalPagination.HalCursorPagination.GetPaginatedResponse | drf_hal_json/pagination.py:25-33 | keys are `_links` then `_embedded`, never `count` or `page_size`; the self link is the base URL; `_embedded` is exactly `{'items': data}` |

## Left out

- DRF's own work arrives as given values: the flat map of `super().to_representation` (serializers.py:37), the URLs of related and identity fields, `build_absolute_uri`, the next and previous links, `get_page_size` and the paginator's count.
- The `isinstance` tests of `_is_link_field`, `_is_link_title_field` and `_is_embedded_field` (serializers.py:77-92) are abstracted into the `FieldKind` tag. A field has one kind, so a field that is both a link and a contributor is not represented.
- `HalIncludeInLinksMixin`, `HalPromoteEmbeddedMixin` and `HalFileField` are marker classes with no behaviour. `_is_link_field` does not consult the mixins.
- `build_nested_field` (serializers.py:94-107) creates classes at run time; it only passes `depth - 1` on.
- `to_internal_value` only raises NotImplementedError, and the `Response` wrapper adds nothing to the document.
- The constructor's `data != empty` test is modelled as a possibly-null `Dict`. A `data=None` argument, which would fail the `in` test, is not modelled.
- Aliasing is not modelled. `ret` and `resp` are values, so objects shared between DRF's map and other structures are not followed.
- HalSerializers.GetUrl: only JSON-like values are modelled. An object with its own `get` method is not covered.
- HalFields.HalHyperlinkedPropertyField.ToRepresentation: `process_value` and `build_absolute_uri` are total functions of the value. Their side effects and exceptions are not modelled.
- HalFields.ContributeOptionsOf: the options are returned as a value rather than stored on a field object, because the class has no other behaviour.
- Python's `__init__` calls into DRF's parent classes are not modelled beyond recording the keywords passed on.
