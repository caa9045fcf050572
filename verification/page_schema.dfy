/** The storage schemas of `src/models/pages.models.ts` (`componentSchema`
    and `pageSchema`) as acceptance predicates over incoming documents, the
    encoding of the interface types into documents, and the decoding back.

    A document is a record with one slot per path the schema declares: in
    strict mode the store drops every other path, so undeclared paths can
    neither be stored nor cause a refusal. A `required` String path refuses
    a missing value, `null` and "", a `required` Number or Boolean refuses a
    missing value and `null`; an optional path takes a missing value, `null`
    or a value of its type. An ObjectId path takes what the ObjectId cast
    takes.

    The connection options of `src/config/mongo.ts:11-17` are those of
    Mongoose 5, where a path declared `{ type: { ... } }` with a plain
    object is a Mixed path: the store keeps whatever value it is given, and
    the `required` flags written inside the object are never checked. That
    is the case of `style`, `layout`, `iconDetails` and `animation`;
    `layout` alone is itself `required`, so it must be present and not
    `null`. `counters`, an array of plain objects, is an array of
    sub-documents whose paths are checked, and `customScripts`, a plain
    object without `type`, is a nested path whose two strings are checked. */
module PageSchema {
  import opened Common
  import opened ObjectId
  import opened PagesModel

  /** The value a client sends at one path. `Sub` is an object, read
      through the keys `D` names; at a plain scalar path `D` is `()` and
      `Sub` stands for any object. */
  datatype Val<+D> =
    | Absent
    | Null
    | Bool(b: bool)
    | Num(n: int)
    | Str(s: string)
    | Sub(doc: D)
    | Arr(items: seq<Val<D>>)

  type Scalar = Val<()>

  datatype StyleDoc = StyleDoc(
    backgroundColor: Scalar,
    backgroundImage: Scalar,
    backgroundSize: Scalar,
    backgroundPosition: Scalar,
    color: Scalar)

  datatype LayoutDoc = LayoutDoc(rows: Scalar, columns: Scalar)

  datatype IconDoc = IconDoc(userFriendlyName: Scalar, icon: Scalar)

  datatype AnimationDoc = AnimationDoc(name: Scalar, startDelay: Scalar, duration: Scalar, infinite: Scalar)

  datatype CounterDoc = CounterDoc(number: Scalar, labelText: Scalar)

  datatype ComponentDoc = ComponentDoc(
    id: Scalar,
    text: Scalar,
    url: Scalar,
    style: Val<StyleDoc>,
    visible: Scalar,
    clicks: Scalar,
    layout: Val<LayoutDoc>,
    typeCode: Scalar,
    mediaUrl: Scalar,
    iconDetails: Val<IconDoc>,
    visibleDate: Scalar,
    launchDate: Scalar,
    animation: Val<AnimationDoc>,
    progressValue: Scalar,
    counters: Val<CounterDoc>)

  datatype ScriptsDoc = ScriptsDoc(header: Scalar, endBody: Scalar)

  datatype PageDoc = PageDoc(
    id: Scalar,
    userId: Scalar,
    name: Scalar,
    url: Scalar,
    pageImageUrl: Scalar,
    isPublic: Scalar,
    views: Scalar,
    style: Val<StyleDoc>,
    topComponents: Val<ComponentDoc>,
    middleComponents: Val<ComponentDoc>,
    bottomComponents: Val<ComponentDoc>,
    customScripts: Val<ScriptsDoc>)

  // ----- one path -----

  predicate Unset<D>(v: Val<D>)
  {
    v.Absent? || v.Null?
  }

  /** A required String path: a string, and not "". */
  predicate ReqString<D>(v: Val<D>)
  {
    v.Str? && v.s != ""
  }

  predicate OptString<D>(v: Val<D>)
  {
    Unset(v) || v.Str?
  }

  predicate OptNumber<D>(v: Val<D>)
  {
    Unset(v) || v.Num?
  }

  /** An optional ObjectId path (`userId`, and `_id`). */
  predicate OptObjectId<D>(v: Val<D>)
  {
    Unset(v) || (v.Str? && ObjectIdText(v.s))
  }

  // ----- schema acceptance -----

  predicate CounterAccepted(d: CounterDoc)
  {
    d.number.Num? && ReqString(d.labelText)
  }

  predicate CountersAccepted(v: Val<CounterDoc>)
  {
    Unset(v)
    || (v.Arr? && forall i :: 0 <= i < |v.items| ==> v.items[i].Sub? && CounterAccepted(v.items[i].doc))
  }

  /** `componentSchema`: `visible`, `clicks`, `layout` and `type` are
      required, `_id` is an ObjectId, the Mixed paths `style`,
      `iconDetails` and `animation` take anything, and the rest are
      optional paths of their type. */
  predicate ComponentAccepted(d: ComponentDoc)
  {
    && OptObjectId(d.id) && OptString(d.text) && OptString(d.url)
    && d.visible.Bool? && d.clicks.Num?
    && !Unset(d.layout)
    && d.typeCode.Num?
    && OptString(d.mediaUrl) && OptString(d.visibleDate) && OptString(d.launchDate)
    && OptNumber(d.progressValue)
    && CountersAccepted(d.counters)
  }

  predicate ComponentListAccepted(v: Val<ComponentDoc>)
  {
    Unset(v)
    || (v.Arr? && forall i :: 0 <= i < |v.items| ==> v.items[i].Sub? && ComponentAccepted(v.items[i].doc))
  }

  predicate ScriptsAccepted(v: Val<ScriptsDoc>)
  {
    Unset(v) || (v.Sub? && OptString(v.doc.header) && OptString(v.doc.endBody))
  }

  /** `pageSchema`: `name`, `url`, `isPublic` and `views` are required;
      `userId` and `_id` are optional ObjectIds; the Mixed `style` takes
      anything; the image, the scripts and the three component lists are
      optional. */
  predicate PageAccepted(d: PageDoc)
  {
    && OptObjectId(d.id) && OptObjectId(d.userId)
    && ReqString(d.name) && ReqString(d.url)
    && OptString(d.pageImageUrl)
    && d.isPublic.Bool? && d.views.Num?
    && ComponentListAccepted(d.topComponents)
    && ComponentListAccepted(d.middleComponents)
    && ComponentListAccepted(d.bottomComponents)
    && ScriptsAccepted(d.customScripts)
  }

  // ----- the shapes the interfaces declare -----

  /** The Mixed paths hold what `IUserComponent` declares for them: the
      store does not check this, a reader relies on it. */
  predicate StyleShaped(v: Val<StyleDoc>)
  {
    Unset(v)
    || (v.Sub? && OptString(v.doc.backgroundColor) && OptString(v.doc.backgroundImage)
        && OptString(v.doc.backgroundSize) && OptString(v.doc.backgroundPosition) && OptString(v.doc.color))
  }

  predicate ComponentShaped(d: ComponentDoc)
  {
    && StyleShaped(d.style)
    && d.layout.Sub? && d.layout.doc.rows.Num? && d.layout.doc.columns.Num?
    && (Unset(d.iconDetails) || (d.iconDetails.Sub? && d.iconDetails.doc.userFriendlyName.Str? && d.iconDetails.doc.icon.Str?))
    && (Unset(d.animation)
        || (d.animation.Sub? && d.animation.doc.name.Str? && d.animation.doc.startDelay.Num?
            && d.animation.doc.duration.Num? && d.animation.doc.infinite.Bool?))
  }

  // ----- encoding the interface types -----

  function EncodeString<D>(v: Option<string>): Val<D>
  {
    if v.Some? then Str(v.value) else Absent
  }

  function EncodeStyle(s: Option<Style>): Val<StyleDoc>
  {
    if s.None? then Absent
    else
      var st := s.value;
      Sub(StyleDoc(EncodeString(st.backgroundColor), EncodeString(st.backgroundImage),
                   EncodeString(st.backgroundSize), EncodeString(st.backgroundPosition),
                   EncodeString(st.color)))
  }

  function EncodeCounters(l: Option<seq<CounterEntry>>): Val<CounterDoc>
  {
    if l.None? then Absent
    else
      Arr(seq(|l.value|, i requires 0 <= i < |l.value| =>
        Sub(CounterDoc(Num(l.value[i].number), Str(l.value[i].labelText)))))
  }

  function EncodeComponent(c: Component): ComponentDoc
  {
    ComponentDoc(
      EncodeString(c.id), EncodeString(c.text), EncodeString(c.url),
      EncodeStyle(c.style),
      Bool(c.visible), Num(c.clicks),
      Sub(LayoutDoc(Num(c.layout.rows), Num(c.layout.columns))),
      Num(Code(c.componentType)),
      EncodeString(c.mediaUrl),
      if c.iconDetails.Some? then
        Sub(IconDoc(Str(c.iconDetails.value.userFriendlyName), Str(c.iconDetails.value.icon)))
      else Absent,
      EncodeString(c.visibleDate), EncodeString(c.launchDate),
      if c.animation.Some? then
        var a := c.animation.value;
        Sub(AnimationDoc(Str(a.name), Num(a.startDelay), Num(a.duration), Bool(a.infinite)))
      else Absent,
      if c.progressValue.Some? then Num(c.progressValue.value) else Absent,
      EncodeCounters(c.counters))
  }

  function EncodeComponents(l: Option<seq<Component>>): (v: Val<ComponentDoc>)
    ensures l.None? <==> v.Absent?
    ensures l.Some? ==> v.Arr? && |v.items| == |l.value|
    ensures l.Some? ==> forall i :: 0 <= i < |l.value| ==> v.items[i] == Sub(EncodeComponent(l.value[i]))
  {
    if l.None? then Absent
    else Arr(seq(|l.value|, i requires 0 <= i < |l.value| => Sub(EncodeComponent(l.value[i]))))
  }

  function EncodePage(p: Page): PageDoc
  {
    PageDoc(
      EncodeString(p.id), Str(p.userId), Str(p.name), Str(p.url),
      EncodeString(p.pageImageUrl), Bool(p.isPublic), Num(p.views),
      EncodeStyle(p.style),
      EncodeComponents(p.topComponents),
      EncodeComponents(p.middleComponents),
      EncodeComponents(p.bottomComponents),
      if p.customScripts.Some? then
        Sub(ScriptsDoc(EncodeString(p.customScripts.value.header), EncodeString(p.customScripts.value.endBody)))
      else Absent)
  }

  // ----- what the interface allows and the schema refuses -----

  /** The interface allows "" for a counter label, where the `required`
      String path refuses it, and any string for an id, where the ObjectId
      cast refuses all but ObjectId text. */
  predicate ComponentStorable(c: Component)
  {
    && (c.id.Some? ==> ObjectIdText(c.id.value))
    && (c.counters.Some? ==> forall i :: 0 <= i < |c.counters.value| ==> c.counters.value[i].labelText != "")
  }

  predicate ListStorable(l: Option<seq<Component>>)
  {
    l.Some? ==> forall i :: 0 <= i < |l.value| ==> ComponentStorable(l.value[i])
  }

  predicate PageStorable(p: Page)
  {
    && (p.id.Some? ==> ObjectIdText(p.id.value)) && ObjectIdText(p.userId)
    && p.name != "" && p.url != ""
    && ListStorable(p.topComponents) && ListStorable(p.middleComponents) && ListStorable(p.bottomComponents)
  }

  /** Counter entries are accepted exactly when no label is empty. */
  lemma EncodedCountersAccepted(l: Option<seq<CounterEntry>>)
    ensures CountersAccepted(EncodeCounters(l))
            <==> (l.Some? ==> forall i :: 0 <= i < |l.value| ==> l.value[i].labelText != "")
  {
    if l.Some? && !forall i :: 0 <= i < |l.value| ==> l.value[i].labelText != "" {
      var i :| 0 <= i < |l.value| && l.value[i].labelText == "";
      assert !CounterAccepted(EncodeCounters(l).items[i].doc);
    }
  }

  /** The component schema accepts the encoding of exactly the components
      whose id is ObjectId text and whose counter labels are non-empty:
      an empty animation name or icon text is stored, since those paths
      are Mixed. */
  lemma EncodedComponentAccepted(c: Component)
    ensures ComponentAccepted(EncodeComponent(c)) <==> ComponentStorable(c)
  {
    EncodedCountersAccepted(c.counters);
  }

  /** The Mixed paths are not checked: in a document the schema accepts,
      `style`, `iconDetails` and `animation` may be replaced by anything,
      and `layout` by anything but a missing value or `null`. */
  lemma MixedPathsUnchecked(d: ComponentDoc, style: Val<StyleDoc>, layout: Val<LayoutDoc>,
                            icon: Val<IconDoc>, animation: Val<AnimationDoc>)
    requires ComponentAccepted(d) && !Unset(layout)
    ensures ComponentAccepted(d.(style := style, layout := layout, iconDetails := icon, animation := animation))
  {
  }

  lemma EncodedListAccepted(l: Option<seq<Component>>)
    ensures ComponentListAccepted(EncodeComponents(l)) <==> ListStorable(l)
  {
    if l.Some? {
      var v := EncodeComponents(l);
      forall i | 0 <= i < |l.value|
        ensures ComponentAccepted(v.items[i].doc) <==> ComponentStorable(l.value[i])
      {
        EncodedComponentAccepted(l.value[i]);
      }
    }
  }

  /** The page schema accepts the encoding of exactly the pages whose
      `userId` and ids pass the ObjectId cast, whose name and url are
      non-empty and whose components are storable. */
  lemma EncodedPageAccepted(p: Page)
    ensures PageAccepted(EncodePage(p)) <==> PageStorable(p)
  {
    EncodedListAccepted(p.topComponents);
    EncodedListAccepted(p.middleComponents);
    EncodedListAccepted(p.bottomComponents);
  }

  // ----- decoding a stored document -----

  function DecodeString<D>(v: Val<D>): Option<string>
    requires OptString(v)
  {
    if v.Str? then Some(v.s) else None
  }

  function DecodeStyle(v: Val<StyleDoc>): Option<Style>
    requires StyleShaped(v)
  {
    if Unset(v) then None
    else
      var d := v.doc;
      Some(Style(DecodeString(d.backgroundColor), DecodeString(d.backgroundImage),
                 DecodeString(d.backgroundSize), DecodeString(d.backgroundPosition),
                 DecodeString(d.color)))
  }

  function DecodeCounters(v: Val<CounterDoc>): Option<seq<CounterEntry>>
    requires CountersAccepted(v)
  {
    if Unset(v) then None
    else
      Some(seq(|v.items|, i requires 0 <= i < |v.items| =>
        CounterEntry(v.items[i].doc.number.n, v.items[i].doc.labelText.s)))
  }

  /** The interface value a component document read back from the store
      stands for: defined exactly on the documents the schema accepts whose
      Mixed paths hold the shapes the interface declares and whose `type`
      code is a member of `ComponentType`. A document read back carries its
      id in the store's spelling. */
  function DecodeComponent(d: ComponentDoc): (r: Option<Component>)
    ensures r.Some? <==> ComponentAccepted(d) && ComponentShaped(d) && FromCode(d.typeCode.n).Some?
  {
    if !(ComponentAccepted(d) && ComponentShaped(d) && FromCode(d.typeCode.n).Some?) then None
    else
      Some(Component(
        DecodeString(d.id), DecodeString(d.text), DecodeString(d.url),
        DecodeStyle(d.style), d.visible.b, d.clicks.n,
        Layout(d.layout.doc.rows.n, d.layout.doc.columns.n),
        FromCode(d.typeCode.n).value,
        DecodeString(d.mediaUrl),
        if Unset(d.iconDetails) then None
        else Some(IconDetails(d.iconDetails.doc.userFriendlyName.s, d.iconDetails.doc.icon.s)),
        DecodeString(d.visibleDate), DecodeString(d.launchDate),
        if Unset(d.animation) then None
        else
          var a := d.animation.doc;
          Some(Animation(a.name.s, a.startDelay.n, a.duration.n, a.infinite.b)),
        if Unset(d.progressValue) then None else Some(d.progressValue.n),
        DecodeCounters(d.counters)))
  }

  lemma {:induction false} CountersRoundTrip(l: Option<seq<CounterEntry>>)
    requires l.Some? ==> forall i :: 0 <= i < |l.value| ==> l.value[i].labelText != ""
    ensures CountersAccepted(EncodeCounters(l)) && DecodeCounters(EncodeCounters(l)) == l
  {
    EncodedCountersAccepted(l);
    if l.Some? {
      var r := DecodeCounters(EncodeCounters(l)).value;
      assert |r| == |l.value|;
      forall i | 0 <= i < |l.value|
        ensures r[i] == l.value[i]
      {
      }
      assert r == l.value;
    }
  }

  /** Decoding undoes encoding for every storable component whose id, if
      it has one, is already in the store's spelling. */
  lemma {:induction false} ComponentRoundTrip(c: Component)
    requires ComponentStorable(c)
    requires c.id.Some? ==> CanonicalObjectId(c.id.value)
    ensures DecodeComponent(EncodeComponent(c)) == Some(c)
  {
    var d := EncodeComponent(c);
    EncodedComponentAccepted(c);
    ComponentTypeCodes(c.componentType, c.componentType);
    CountersRoundTrip(c.counters);
    StyleRoundTrip(c.style);
    assert ComponentShaped(d);
    assert DecodeString(d.id) == c.id;
    var r := DecodeComponent(d).value;
    assert r.style == c.style && r.counters == c.counters;
    assert r.iconDetails == c.iconDetails && r.animation == c.animation;
  }

  lemma StyleRoundTrip(s: Option<Style>)
    ensures StyleShaped(EncodeStyle(s)) && DecodeStyle(EncodeStyle(s)) == s
  {
  }

  /** The schema stores `type` as any number: a code outside the
      enumeration is accepted, and no interface value stands for it. */
  lemma TypeCodeNotEnforced(c: Component)
    requires ComponentStorable(c)
    ensures var d := EncodeComponent(c).(typeCode := Num(11));
            ComponentAccepted(d) && DecodeComponent(d).None?
  {
    EncodedComponentAccepted(c);
  }

  /** Nor does it check the inner shape of a Mixed path: a layout sent as
      an empty object is stored, and no interface value stands for it. */
  lemma LayoutShapeNotEnforced(c: Component)
    requires ComponentStorable(c)
    ensures var d := EncodeComponent(c).(layout := Sub(LayoutDoc(Absent, Absent)));
            ComponentAccepted(d) && DecodeComponent(d).None?
  {
    EncodedComponentAccepted(c);
  }
}
