/** The plan gate of `src/utils/user-plan/index.ts`: the features a page
    may use are cut down to those of the owner's plan before it is served. */
module PlanGate {
  import opened Common
  import opened PagesModel

  /** `PlanFeatures` of `src/models/plans-features.models.ts`, without its
      two timestamps. */
  datatype PlanFeatures = PlanFeatures(
    id: string,
    stripeProductId: string,
    description: string,
    maxPages: int,
    animations: bool,
    specialSupport: bool,
    componentActivationSchedule: bool,
    analytics: bool,
    customJs: bool,
    isActive: bool)

  /** `list?.map(f)`: an absent list stays absent. */
  function MapComponents(l: Option<seq<Component>>, f: Component -> Component): (r: Option<seq<Component>>)
    ensures r.Some? <==> l.Some?
    ensures r.Some? ==> |r.value| == |l.value|
    ensures r.Some? ==> forall i :: 0 <= i < |l.value| ==> r.value[i] == f(l.value[i])
  {
    if l.None? then None else Some(seq(|l.value|, i requires 0 <= i < |l.value| => f(l.value[i])))
  }

  function WithoutAnimation(c: Component): Component
  {
    c.(animation := None)
  }

  function WithoutLaunchDate(c: Component): Component
  {
    c.(launchDate := None)
  }

  /** `after` is `before` with `animation` cleared on every component and
      every other field of every component kept, in the same order. */
  predicate AnimationsCleared(before: Option<seq<Component>>, after: Option<seq<Component>>)
  {
    && (after.Some? <==> before.Some?)
    && (before.Some? ==>
          && |after.value| == |before.value|
          && forall i :: 0 <= i < |before.value| ==>
               after.value[i].animation.None?
               && after.value[i].(animation := before.value[i].animation) == before.value[i])
  }

  /** `after` is `before` with `launchDate` cleared on every component and
      every other field of every component kept, in the same order. */
  predicate LaunchDatesCleared(before: Option<seq<Component>>, after: Option<seq<Component>>)
  {
    && (after.Some? <==> before.Some?)
    && (before.Some? ==>
          && |after.value| == |before.value|
          && forall i :: 0 <= i < |before.value| ==>
               after.value[i].launchDate.None?
               && after.value[i].(launchDate := before.value[i].launchDate) == before.value[i])
  }

  /** The page-level fields other than the three lists agree. */
  predicate SameOutsideLists(p: Page, q: Page)
  {
    p.(topComponents := q.topComponents, middleComponents := q.middleComponents,
       bottomComponents := q.bottomComponents) == q
  }

  predicate AnimationsInPlan(plan: Option<PlanFeatures>)
  {
    plan.Some? && plan.value.animations
  }

  predicate LaunchScheduleInPlan(plan: Option<PlanFeatures>)
  {
    plan.Some? && plan.value.componentActivationSchedule
  }

  predicate CustomJsInPlan(plan: Option<PlanFeatures>)
  {
    plan.Some? && plan.value.customJs
  }

  /** `removeAnimationsIfNotInPlan(page, userPlan)`. */
  function RemoveAnimationsIfNotInPlan(page: Page, plan: Option<PlanFeatures>): (r: Page)
    ensures AnimationsInPlan(plan) ==> r == page
    ensures !AnimationsInPlan(plan) ==>
              && SameOutsideLists(r, page)
              && AnimationsCleared(page.topComponents, r.topComponents)
              && AnimationsCleared(page.middleComponents, r.middleComponents)
              && AnimationsCleared(page.bottomComponents, r.bottomComponents)
  {
    if !AnimationsInPlan(plan) then
      page.(bottomComponents := MapComponents(page.bottomComponents, WithoutAnimation),
            middleComponents := MapComponents(page.middleComponents, WithoutAnimation),
            topComponents := MapComponents(page.topComponents, WithoutAnimation))
    else page
  }

  /** `removeComponentsLaunchDateIfNotInPlan(page, userPlan)`. */
  function RemoveComponentsLaunchDateIfNotInPlan(page: Page, plan: Option<PlanFeatures>): (r: Page)
    ensures LaunchScheduleInPlan(plan) ==> r == page
    ensures !LaunchScheduleInPlan(plan) ==>
              && SameOutsideLists(r, page)
              && LaunchDatesCleared(page.topComponents, r.topComponents)
              && LaunchDatesCleared(page.middleComponents, r.middleComponents)
              && LaunchDatesCleared(page.bottomComponents, r.bottomComponents)
  {
    if !LaunchScheduleInPlan(plan) then
      page.(bottomComponents := MapComponents(page.bottomComponents, WithoutLaunchDate),
            middleComponents := MapComponents(page.middleComponents, WithoutLaunchDate),
            topComponents := MapComponents(page.topComponents, WithoutLaunchDate))
    else page
  }

  /** `removeCustomJsIfNotInPlan(page, userPlan)`: without `customJs` the
      scripts are present and empty, even on a page that had none. */
  function RemoveCustomJsIfNotInPlan(page: Page, plan: Option<PlanFeatures>): (r: Page)
    ensures CustomJsInPlan(plan) ==> r == page
    ensures !CustomJsInPlan(plan) ==> r.customScripts == Some(CustomScripts(None, None))
    ensures r.(customScripts := page.customScripts) == page
  {
    if !CustomJsInPlan(plan) then page.(customScripts := Some(CustomScripts(None, None))) else page
  }

  /** `hasAnalyticsInPlan(userPlan)`. */
  function HasAnalyticsInPlan(plan: Option<PlanFeatures>): (r: bool)
    ensures r <==> plan.Some? && plan.value.analytics
  {
    match plan
    case None => false
    case Some(p) => p.analytics
  }

  // ----- properties relating several calls -----

  predicate NoAnimations(l: Option<seq<Component>>)
  {
    l.Some? ==> forall i :: 0 <= i < |l.value| ==> l.value[i].animation.None?
  }

  /** Mapping a function that leaves every element alone leaves the list alone. */
  lemma {:induction false} MapComponentsIdentity(l: Option<seq<Component>>, f: Component -> Component)
    requires l.Some? ==> forall i :: 0 <= i < |l.value| ==> f(l.value[i]) == l.value[i]
    ensures MapComponents(l, f) == l
  {
    if l.Some? {
      assert MapComponents(l, f).value == l.value;
    }
  }

  /** The strip changes nothing exactly when the plan allows animations or
      no component of any list has one. */
  lemma {:induction false} AnimationStripIsIdentity(page: Page, plan: Option<PlanFeatures>)
    ensures RemoveAnimationsIfNotInPlan(page, plan) == page
            <==> AnimationsInPlan(plan)
                 || (NoAnimations(page.topComponents) && NoAnimations(page.middleComponents)
                     && NoAnimations(page.bottomComponents))
  {
    if !AnimationsInPlan(plan) {
      if NoAnimations(page.topComponents) && NoAnimations(page.middleComponents)
         && NoAnimations(page.bottomComponents) {
        MapComponentsIdentity(page.topComponents, WithoutAnimation);
        MapComponentsIdentity(page.middleComponents, WithoutAnimation);
        MapComponentsIdentity(page.bottomComponents, WithoutAnimation);
      }
    }
  }

  lemma {:induction false} MapTwice(l: Option<seq<Component>>, f: Component -> Component)
    requires forall c :: f(f(c)) == f(c)
    ensures MapComponents(MapComponents(l, f), f) == MapComponents(l, f)
  {
    if l.Some? {
      assert MapComponents(MapComponents(l, f), f).value == MapComponents(l, f).value;
    }
  }

  lemma {:induction false} MapSwap(l: Option<seq<Component>>, f: Component -> Component, g: Component -> Component)
    requires forall c :: f(g(c)) == g(f(c))
    ensures MapComponents(MapComponents(l, g), f) == MapComponents(MapComponents(l, f), g)
  {
    if l.Some? {
      assert MapComponents(MapComponents(l, g), f).value == MapComponents(MapComponents(l, f), g).value;
    }
  }

  lemma {:induction false} AnimationStripIdempotent(page: Page, plan: Option<PlanFeatures>)
    ensures var once := RemoveAnimationsIfNotInPlan(page, plan);
            RemoveAnimationsIfNotInPlan(once, plan) == once
  {
    MapTwice(page.topComponents, WithoutAnimation);
    MapTwice(page.middleComponents, WithoutAnimation);
    MapTwice(page.bottomComponents, WithoutAnimation);
  }

  lemma {:induction false} LaunchDateStripIdempotent(page: Page, plan: Option<PlanFeatures>)
    ensures var once := RemoveComponentsLaunchDateIfNotInPlan(page, plan);
            RemoveComponentsLaunchDateIfNotInPlan(once, plan) == once
  {
    MapTwice(page.topComponents, WithoutLaunchDate);
    MapTwice(page.middleComponents, WithoutLaunchDate);
    MapTwice(page.bottomComponents, WithoutLaunchDate);
  }

  lemma CustomJsStripIdempotent(page: Page, plan: Option<PlanFeatures>)
    ensures var once := RemoveCustomJsIfNotInPlan(page, plan);
            RemoveCustomJsIfNotInPlan(once, plan) == once
  {
  }

  /** The animation and launch-date strips touch disjoint fields, so their
      order does not matter, whatever plan each is given. */
  lemma {:induction false} StripsCommute(page: Page, a: Option<PlanFeatures>, b: Option<PlanFeatures>)
    ensures RemoveAnimationsIfNotInPlan(RemoveComponentsLaunchDateIfNotInPlan(page, b), a)
            == RemoveComponentsLaunchDateIfNotInPlan(RemoveAnimationsIfNotInPlan(page, a), b)
  {
    MapSwap(page.topComponents, WithoutAnimation, WithoutLaunchDate);
    MapSwap(page.middleComponents, WithoutAnimation, WithoutLaunchDate);
    MapSwap(page.bottomComponents, WithoutAnimation, WithoutLaunchDate);
  }

  /** The custom-script strip leaves the component lists to the other two,
      and commutes with both. */
  lemma CustomJsStripCommutes(page: Page, a: Option<PlanFeatures>, b: Option<PlanFeatures>)
    ensures RemoveCustomJsIfNotInPlan(RemoveAnimationsIfNotInPlan(page, a), b)
            == RemoveAnimationsIfNotInPlan(RemoveCustomJsIfNotInPlan(page, b), a)
    ensures RemoveCustomJsIfNotInPlan(RemoveComponentsLaunchDateIfNotInPlan(page, a), b)
            == RemoveComponentsLaunchDateIfNotInPlan(RemoveCustomJsIfNotInPlan(page, b), a)
  {
  }
}
