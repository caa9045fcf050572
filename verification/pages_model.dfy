/** The page and component documents of `src/models/pages.models.ts`, as
    their TypeScript interfaces declare them: required fields are plain
    values, optional (`?`) fields are `Option`s. */
module PagesModel {
  import opened Common

  /** The closed `ComponentType` enumeration. */
  datatype ComponentType =
    | Text | Image | TextImage | Icon | Video | Launch
    | TextOverImage | Map | Spotify | ProgressBar | Counter

  /** The numeric code an enum member stands for. */
  function Code(t: ComponentType): (n: int)
  {
    match t
    case Text => 0
    case Image => 1
    case TextImage => 2
    case Icon => 3
    case Video => 4
    case Launch => 5
    case TextOverImage => 6
    case Map => 7
    case Spotify => 8
    case ProgressBar => 9
    case Counter => 10
  }

  /** The member a stored numeric code denotes, if any. */
  function FromCode(n: int): (t: Option<ComponentType>)
    ensures t.Some? <==> 0 <= n <= 10
    ensures t.Some? ==> Code(t.value) == n
  {
    if n == 0 then Some(Text)
    else if n == 1 then Some(Image)
    else if n == 2 then Some(TextImage)
    else if n == 3 then Some(Icon)
    else if n == 4 then Some(Video)
    else if n == 5 then Some(Launch)
    else if n == 6 then Some(TextOverImage)
    else if n == 7 then Some(Map)
    else if n == 8 then Some(Spotify)
    else if n == 9 then Some(ProgressBar)
    else if n == 10 then Some(Counter)
    else None
  }

  /** The enumeration is exactly the eleven codes 0 through 10, one member each. */
  lemma ComponentTypeCodes(t: ComponentType, u: ComponentType)
    ensures 0 <= Code(t) <= 10
    ensures FromCode(Code(t)) == Some(t)
    ensures Code(t) == Code(u) ==> t == u
  {
    assert FromCode(Code(t)) == Some(t);
    assert FromCode(Code(u)) == Some(u);
  }

  datatype Animation = Animation(name: string, startDelay: int, duration: int, infinite: bool)

  datatype Layout = Layout(rows: int, columns: int)

  datatype IconDetails = IconDetails(userFriendlyName: string, icon: string)

  datatype Style = Style(
    backgroundColor: Option<string>,
    backgroundImage: Option<string>,
    backgroundSize: Option<string>,
    backgroundPosition: Option<string>,
    color: Option<string>)

  datatype CounterEntry = CounterEntry(number: int, labelText: string)

  /** `IUserComponent`; the TypeScript field `type` is `componentType` here. */
  datatype Component = Component(
    id: Option<string>,
    text: Option<string>,
    url: Option<string>,
    style: Option<Style>,
    visible: bool,
    clicks: int,
    layout: Layout,
    componentType: ComponentType,
    mediaUrl: Option<string>,
    iconDetails: Option<IconDetails>,
    visibleDate: Option<string>,
    launchDate: Option<string>,
    animation: Option<Animation>,
    progressValue: Option<int>,
    counters: Option<seq<CounterEntry>>)

  datatype CustomScripts = CustomScripts(header: Option<string>, endBody: Option<string>)

  /** `IUserPage`, with its three optional, ordered component lists. */
  datatype Page = Page(
    id: Option<string>,
    userId: string,
    name: string,
    url: string,
    pageImageUrl: Option<string>,
    isPublic: bool,
    views: int,
    style: Option<Style>,
    topComponents: Option<seq<Component>>,
    middleComponents: Option<seq<Component>>,
    bottomComponents: Option<seq<Component>>,
    customScripts: Option<CustomScripts>)
}
