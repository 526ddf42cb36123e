/**
 * What `get_fields` sorts the declared fields into: the link names and the
 * embedded names in declaration order, and for every link that has a title
 * contributor the name of its last contributor. Declared fields have
 * distinct names (they are the keys of an ordered dict), and from that the
 * three buckets satisfy everything `to_representation` relies on.
 */
module FieldBuckets {
  import opened Json
  import opened HalSerializers
  import opened RenderProperties

  lemma {:induction false} SelectedMembers(fs: seq<Field>, p: Field -> bool, n: string)
    ensures n in Selected(fs, p) <==> exists i | 0 <= i < |fs| :: fs[i].name == n && p(fs[i])
    decreases |fs|
  {
    if fs != [] {
      var init := fs[..|fs| - 1];
      SelectedMembers(init, p, n);
      assert forall i | 0 <= i < |init| :: init[i] == fs[i];
      if n in Selected(init, p) {
        var i :| 0 <= i < |init| && init[i].name == n && p(init[i]);
        assert fs[i].name == n && p(fs[i]);
      }
    }
  }

  /** Selection keeps declaration order: it distributes over concatenation. */
  lemma {:induction false} SelectedAppend(fs: seq<Field>, gs: seq<Field>, p: Field -> bool)
    ensures Selected(fs + gs, p) == Selected(fs, p) + Selected(gs, p)
    decreases |gs|
  {
    if gs != [] {
      var init := gs[..|gs| - 1];
      assert (fs + gs)[..|fs + gs| - 1] == fs + init;
      SelectedAppend(fs, init, p);
    } else {
      assert fs + gs == fs;
    }
  }

  lemma {:induction false} SelectedNoDup(fs: seq<Field>, p: Field -> bool)
    requires NoDup(Names(fs))
    ensures NoDup(Selected(fs, p))
    decreases |fs|
  {
    if fs != [] {
      var init := fs[..|fs| - 1];
      var last := fs[|fs| - 1];
      assert Names(init) == Names(fs)[..|fs| - 1];
      SelectedNoDup(init, p);
      if p(last) {
        SelectedMembers(init, p, last.name);
        var s := Selected(init, p);
        forall i, j | 0 <= i < j < |s + [last.name]| ensures (s + [last.name])[i] != (s + [last.name])[j] {
          if j == |s| {
            assert s[i] in s;
          }
        }
      }
    }
  }

  lemma {:induction false} TitleFieldNamesKeys(fs: seq<Field>, t: string)
    ensures t in TitleFieldNames(fs) <==> exists i | 0 <= i < |fs| :: fs[i].kind == TitleContributor(t)
    decreases |fs|
  {
    if fs != [] {
      var init := fs[..|fs| - 1];
      TitleFieldNamesKeys(init, t);
      assert forall i | 0 <= i < |init| :: init[i] == fs[i];
      if t in TitleFieldNames(init) {
        var i :| 0 <= i < |init| && init[i].kind == TitleContributor(t);
        assert fs[i].kind == TitleContributor(t);
      }
    }
  }

  lemma {:induction false} TitleFieldNamesLast(fs: seq<Field>, t: string)
    requires t in TitleFieldNames(fs)
    ensures exists i | 0 <= i < |fs| ::
      && fs[i].kind == TitleContributor(t)
      && fs[i].name == TitleFieldNames(fs)[t]
      && forall j | i < j < |fs| :: fs[j].kind != TitleContributor(t)
    decreases |fs|
  {
    var init := fs[..|fs| - 1];
    var last := fs[|fs| - 1];
    if last.kind == TitleContributor(t) {
      assert TitleFieldNames(fs)[t] == last.name;
    } else {
      TitleFieldNamesLast(init, t);
      var i :| 0 <= i < |init| && init[i].kind == TitleContributor(t) && init[i].name == TitleFieldNames(init)[t]
        && forall j | i < j < |init| :: init[j].kind != TitleContributor(t);
      assert fs[i] == init[i];
      assert forall j | i < j < |fs| :: fs[j].kind != TitleContributor(t) by {
        forall j | i < j < |fs| ensures fs[j].kind != TitleContributor(t) {
          if j < |init| { assert fs[j] == init[j]; }
        }
      }
    }
  }

  /**
   * A link has a contributor exactly when some field contributes its title,
   * and the contributor recorded is the last such field.
   */
  lemma TitleFieldNamesSource(fs: seq<Field>, t: string)
    ensures t in TitleFieldNames(fs) <==> exists i | 0 <= i < |fs| :: fs[i].kind == TitleContributor(t)
    ensures t in TitleFieldNames(fs) ==>
      exists i | 0 <= i < |fs| ::
        && fs[i].kind == TitleContributor(t)
        && fs[i].name == TitleFieldNames(fs)[t]
        && forall j | i < j < |fs| :: fs[j].kind != TitleContributor(t)
  {
    TitleFieldNamesKeys(fs, t);
    if t in TitleFieldNames(fs) {
      TitleFieldNamesLast(fs, t);
    }
  }

  /** A recorded contributor is a declared contributor field for that link. */
  lemma TitleFieldOf(fs: seq<Field>, t: string) returns (i: nat)
    requires t in TitleFieldNames(fs)
    ensures i < |fs| && fs[i].kind == TitleContributor(t) && fs[i].name == TitleFieldNames(fs)[t]
  {
    TitleFieldNamesSource(fs, t);
    i :| 0 <= i < |fs| && fs[i].kind == TitleContributor(t) && fs[i].name == TitleFieldNames(fs)[t]
      && forall j | i < j < |fs| :: fs[j].kind != TitleContributor(t);
  }

  /**
   * Declared fields with distinct names give buckets that satisfy
   * WellFormedConfig: the render theorems of RenderProperties apply to
   * every serializer after `get_fields`.
   */
  lemma BucketsWellFormed(fs: seq<Field>)
    requires NoDup(Names(fs))
    ensures WellFormedConfig(LinkNames(fs), TitleFieldNames(fs), EmbeddedNames(fs))
  {
    var links := LinkNames(fs);
    var titles := TitleFieldNames(fs);
    var embedded := EmbeddedNames(fs);
    SelectedNoDup(fs, IsLinkField);
    SelectedNoDup(fs, CollectedAsEmbedded);
    forall n | n in links ensures n !in embedded {
      SelectedMembers(fs, IsLinkField, n);
      SelectedMembers(fs, CollectedAsEmbedded, n);
    }
    forall t | t in titles ensures titles[t] !in links && titles[t] !in embedded {
      var i := TitleFieldOf(fs, t);
      SelectedMembers(fs, IsLinkField, titles[t]);
      SelectedMembers(fs, CollectedAsEmbedded, titles[t]);
    }
    forall t, u | t in titles && u in titles && t != u ensures titles[t] != titles[u] {
      var i := TitleFieldOf(fs, t);
      var j := TitleFieldOf(fs, u);
    }
  }
}
