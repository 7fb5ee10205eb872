/** The filterable project gallery: a filter key picks an order-preserving sub-list of the
    catalog, and a selected project with an open flag drives the detail overlay. */
module Projects {
  import opened PortfolioTypes
  import Sequences
  import ProjectModal
  import Catalog

  /** A filter button's key: "all", or one of the seven categories. */
  datatype FilterKey = All | Only(category: ProjectCategory)

  /** Whether a project belongs to what a key asks for. */
  predicate Matches(key: FilterKey, p: Project)
  {
    key.All? || p.category == key.category
  }

  function KeepFor(key: FilterKey): Project -> bool
  {
    p => Matches(key, p)
  }

  /** `projects.filter(project => project.category === category)`. */
  function OfCategory(catalog: seq<Project>, c: ProjectCategory): (r: seq<Project>)
    ensures |r| <= |catalog|
    ensures forall p :: p in r ==> p in catalog && p.category == c
  {
    Sequences.SelectSound(catalog, KeepFor(Only(c)));
    Sequences.Select(catalog, KeepFor(Only(c)))
  }

  /** The visible list for a key: the catalog itself for "all", the category's projects
      otherwise. */
  function Filtered(catalog: seq<Project>, key: FilterKey): (r: seq<Project>)
    ensures |r| <= |catalog|
    ensures forall p :: p in r ==> p in catalog && Matches(key, p)
  {
    match key
    case All => catalog
    case Only(c) => OfCategory(catalog, c)
  }

  /** Both branches are one selection: "all" keeps every project, so returning the catalog
      unfiltered is the same as filtering it with a predicate that accepts everything. */
  lemma {:induction false} FilteredIsSelection(catalog: seq<Project>, key: FilterKey)
    ensures Filtered(catalog, key) == Sequences.Select(catalog, KeepFor(key))
  {
    if key.All? && catalog != [] {
      var init := catalog[..|catalog| - 1];
      FilteredIsSelection(init, key);
      assert catalog == init + [catalog[|catalog| - 1]];
    }
  }

  /** A project is visible exactly when it is in the catalog and matches the key; for "all"
      that is every catalog project. */
  lemma FilteredMembership(catalog: seq<Project>, key: FilterKey, p: Project)
    ensures p in Filtered(catalog, key) <==> p in catalog && (key.All? || p.category == key.category)
  {
    FilteredIsSelection(catalog, key);
    Sequences.SelectMembership(catalog, KeepFor(key), p);
  }

  /** The visible list is a subsequence of the catalog in catalog order: the k-th visible
      project is the catalog's project at position `pos[k]`, the positions strictly increase,
      and every matching catalog position is among them. */
  lemma FilteredIsOrderedSubsequence(catalog: seq<Project>, key: FilterKey)
    ensures var r, pos := Filtered(catalog, key), Sequences.Positions(catalog, KeepFor(key));
      && |pos| == |r|
      && (forall k :: 0 <= k < |pos| ==> pos[k] < |catalog| && r[k] == catalog[pos[k]])
      && (forall i, j :: 0 <= i < j < |pos| ==> pos[i] < pos[j])
      && (forall j :: 0 <= j < |catalog| && Matches(key, catalog[j]) ==> j in pos)
  {
    FilteredIsSelection(catalog, key);
    Sequences.SelectIsOrderedSubsequence(catalog, KeepFor(key));
  }

  /** Filtering what a key already filtered changes nothing. */
  lemma FilteredIdempotent(catalog: seq<Project>, key: FilterKey)
    ensures Filtered(Filtered(catalog, key), key) == Filtered(catalog, key)
  {
    if key.Only? {
      Sequences.SelectIdempotent(catalog, KeepFor(key));
    }
  }

  /** With the shipped catalog every filter button shows at least one project, so the
      "No projects found" message never appears. */
  lemma ShippedCatalogHasNoEmptyFilter(key: FilterKey)
    ensures Filtered(Catalog.Projects, key) != []
  {
    if key.Only? {
      var ps := Catalog.Projects;
      var example :=
        match key.category
        case Business => ps[0]
        case Portfolio => ps[1]
        case Landing => ps[2]
        case Webapp => ps[3]
        case Wordpress => ps[4]
        case Ecommerce => ps[5]
        case Saas => ps[6];
      assert example in ps && example.category == key.category;
      FilteredMembership(ps, key, example);
    }
  }

  /** The gallery's component state. */
  datatype GalleryState = GalleryState(
    activeFilter: FilterKey,
    filteredProjects: seq<Project>,
    selectedProject: Option<Project>,
    isModalOpen: bool)

  /** What every reachable gallery state satisfies: the visible list is the active filter's
      and the overlay is open exactly when a project is selected. */
  ghost predicate Consistent(catalog: seq<Project>, st: GalleryState)
  {
    && st.filteredProjects == Filtered(catalog, st.activeFilter)
    && (st.isModalOpen <==> st.selectedProject.Some?)
  }

  /** `handleFilter(key)`: the new filter and its list; the selection is untouched. */
  function ApplyFilter(catalog: seq<Project>, st: GalleryState, key: FilterKey): (r: GalleryState)
    ensures Consistent(catalog, st) ==> Consistent(catalog, r)
  {
    st.(activeFilter := key, filteredProjects := Filtered(catalog, key))
  }

  /** `openModal(project)`: select the project and open the overlay. */
  function Open(st: GalleryState, p: Project): (r: GalleryState)
    ensures r.selectedProject == Some(p) && r.isModalOpen
    ensures r.activeFilter == st.activeFilter && r.filteredProjects == st.filteredProjects
    ensures forall catalog :: Consistent(catalog, st) ==> Consistent(catalog, r)
  {
    st.(selectedProject := Some(p), isModalOpen := true)
  }

  /** `closeModal()`: close the overlay and clear the selection. */
  function Close(st: GalleryState): (r: GalleryState)
    ensures forall catalog :: Consistent(catalog, st) ==> Consistent(catalog, r)
  {
    st.(isModalOpen := false, selectedProject := None)
  }

  /** Filtering sets the key and its list and nothing else, and does so whatever the previous
      filter was, so applying the same key twice is the same as applying it once. */
  lemma ApplyFilterEffect(catalog: seq<Project>, st: GalleryState, key: FilterKey)
    ensures var r := ApplyFilter(catalog, st, key);
      && r.activeFilter == key && r.filteredProjects == Filtered(catalog, key)
      && r.selectedProject == st.selectedProject && r.isModalOpen == st.isModalOpen
      && ApplyFilter(catalog, r, key) == r
  {
  }

  /** Opening and then closing the overlay leaves the filter and its list as they were and
      returns a closed gallery to exactly its state before the opening. */
  lemma OpenThenCloseRestores(catalog: seq<Project>, st: GalleryState, p: Project)
    requires Consistent(catalog, st) && !st.isModalOpen
    ensures Close(Open(st, p)) == st
  {
  }

  /** The user events of the gallery: a filter button, a card's "View Details" button, and
      the overlay's close callback. */
  datatype GalleryEvent = FilterClick(key: FilterKey) | ViewDetails(project: Project) | CloseOverlay

  function Step(catalog: seq<Project>, st: GalleryState, e: GalleryEvent): (r: GalleryState)
    ensures Consistent(catalog, st) ==> Consistent(catalog, r)
  {
    match e
    case FilterClick(key) => ApplyFilter(catalog, st, key)
    case ViewDetails(p) => Open(st, p)
    case CloseOverlay => Close(st)
  }

  /** The overlay as the gallery renders it, with `closeModal` as its close callback. */
  function Overlay(st: GalleryState): (v: ProjectModal.View<GalleryEvent>)
    ensures ProjectModal.OverlayShown(v) <==> st.selectedProject.Some? && st.isModalOpen
    ensures ProjectModal.OverlayShown(v) ==> v.overlay.value.title == st.selectedProject.value.title
  {
    ProjectModal.Render(st.selectedProject, st.isModalOpen, CloseOverlay)
  }

  /** After "View Details" on a project the overlay is on screen and shows that project, with
      `closeModal` behind both of its close controls. */
  lemma OpenShowsProject(st: GalleryState, p: Project)
    ensures var v := Overlay(Open(st, p));
      && ProjectModal.OverlayShown(v)
      && v.overlay.value.title == p.title && v.overlay.value.description == p.description
      && v.overlay.value.technologies == p.technologies
      && v.overlay.value.onBackdropClick == CloseOverlay && v.overlay.value.onCloseButton == CloseOverlay
  {
  }

  /** While open, the overlay shows the selected project, and a click on its backdrop or on
      its close button (both dispatch the close callback) leaves a gallery whose overlay
      renders nothing at all. */
  lemma OverlayClicksClose(catalog: seq<Project>, st: GalleryState)
    requires Consistent(catalog, st) && st.isModalOpen
    ensures var v := Overlay(st);
      && ProjectModal.OverlayShown(v)
      && v.overlay.value.title == st.selectedProject.value.title
      && Overlay(Step(catalog, st, v.overlay.value.onBackdropClick)) == ProjectModal.Null
      && Overlay(Step(catalog, st, v.overlay.value.onCloseButton)) == ProjectModal.Null
  {
  }

  /** The "No projects found in this category." message. */
  predicate ShowsEmptyMessage(st: GalleryState)
  {
    |st.filteredProjects| == 0
  }

  /** The empty-state message is shown exactly when no catalog project matches the filter. */
  lemma EmptyMessageIffNoMatch(catalog: seq<Project>, st: GalleryState)
    requires Consistent(catalog, st)
    ensures ShowsEmptyMessage(st) <==> forall p :: p in catalog ==> !Matches(st.activeFilter, p)
  {
    if !ShowsEmptyMessage(st) {
      FilteredMembership(catalog, st.activeFilter, st.filteredProjects[0]);
    } else {
      forall p | p in catalog ensures !Matches(st.activeFilter, p) {
        FilteredMembership(catalog, st.activeFilter, p);
      }
    }
  }

  /** A card's technology chips: the first three, and a "+n more" chip counting the rest. */
  datatype TagPreview = TagPreview(chips: seq<string>, more: Option<nat>)

  /** The chips and the "+n more" count together account for every technology, and the
      extra chip appears exactly when there are more than three. */
  function CardTags(techs: seq<string>): (t: TagPreview)
    ensures t.chips <= techs
    ensures |t.chips| == if |techs| < 3 then |techs| else 3
    ensures t.more.Some? <==> |techs| > 3
    ensures |t.chips| + (if t.more.Some? then t.more.value else 0) == |techs|
  {
    TagPreview(ProjectModal.FirstThree(techs), if |techs| > 3 then Some(|techs| - 3) else None)
  }

  /** A gallery card as rendered for one visible project. */
  datatype ProjectCard = ProjectCard(
    title: string,
    description: string,
    image: string,
    featuredBadge: bool,
    tags: TagPreview,
    liveDemo: Option<string>,
    code: Option<string>)

  /** The "Featured" badge follows the flag, and the "Live Demo" and "Code" links, like the
      overlay's buttons, appear only for a truthy URL. */
  function RenderCard(p: Project): (c: ProjectCard)
    ensures c.title == p.title && c.description == p.description && c.image == p.image
    ensures c.featuredBadge <==> p.featured
    ensures c.tags.chips <= p.technologies
    ensures c.tags == CardTags(p.technologies)
    ensures c.liveDemo.Some? <==> ProjectModal.Truthy(p.liveUrl)
    ensures c.liveDemo.Some? ==> c.liveDemo == p.liveUrl
    ensures c.code.Some? <==> ProjectModal.Truthy(p.githubUrl)
    ensures c.code.Some? ==> c.code == p.githubUrl
  {
    ProjectCard(p.title, p.description, p.image, p.featured, CardTags(p.technologies),
                ProjectModal.LinkButton(p.liveUrl), ProjectModal.LinkButton(p.githubUrl))
  }

  /** The filter buttons, in display order, with their keys and labels. */
  const FilterButtons: seq<(FilterKey, string)> := [
    (All, "All Projects"),
    (Only(Business), "Business"),
    (Only(Portfolio), "Portfolio"),
    (Only(Landing), "Landing Pages"),
    (Only(Webapp), "Web Apps"),
    (Only(Wordpress), "WordPress"),
    (Only(Ecommerce), "E-commerce"),
    (Only(Saas), "SaaS")]

  /** Which buttons are drawn highlighted: those whose key is the active filter. */
  function Highlighted(active: FilterKey): (lit: seq<bool>)
    ensures |lit| == |FilterButtons|
  {
    seq(|FilterButtons|, i requires 0 <= i < |FilterButtons| => FilterButtons[i].0 == active)
  }

  /** Every filter key has exactly one button, so whatever the active filter is, exactly one
      button is highlighted: the one that sets it. */
  lemma OneButtonPerKey(key: FilterKey)
    ensures exists i :: 0 <= i < |FilterButtons| && FilterButtons[i].0 == key && Highlighted(key)[i]
    ensures forall i, j :: 0 <= i < j < |FilterButtons| ==> FilterButtons[i].0 != FilterButtons[j].0
    ensures forall i, j ::
      0 <= i < |FilterButtons| && 0 <= j < |FilterButtons| && Highlighted(key)[i] && Highlighted(key)[j]
      ==> i == j
  {
    var b := FilterButtons;
    var i :=
      match key
      case All => 0
      case Only(Business) => 1
      case Only(Portfolio) => 2
      case Only(Landing) => 3
      case Only(Webapp) => 4
      case Only(Wordpress) => 5
      case Only(Ecommerce) => 6
      case Only(Saas) => 7;
    assert b[i].0 == key && Highlighted(key)[i];
  }

  /** The gallery component, whose state fields its handlers overwrite. */
  class Gallery {
    const catalog: seq<Project>
    var activeFilter: FilterKey
    var filteredProjects: seq<Project>
    var selectedProject: Option<Project>
    var isModalOpen: bool

    function State(): GalleryState
      reads this
    {
      GalleryState(activeFilter, filteredProjects, selectedProject, isModalOpen)
    }

    ghost predicate Valid()
      reads this
    {
      Consistent(catalog, State())
    }

    /** The initial state: filter "all", the whole catalog visible, nothing selected, closed. */
    constructor (catalog: seq<Project>)
      ensures this.catalog == catalog && Valid()
      ensures activeFilter == All && filteredProjects == catalog
      ensures selectedProject == None && !isModalOpen
    {
      this.catalog := catalog;
      activeFilter := All;
      filteredProjects := catalog;
      selectedProject := None;
      isModalOpen := false;
    }

    method HandleFilter(key: FilterKey)
      requires Valid()
      modifies this
      ensures Valid() && State() == ApplyFilter(catalog, old(State()), key)
    {
      activeFilter := key;
      if key == All {
        filteredProjects := catalog;
      } else {
        filteredProjects := OfCategory(catalog, key.category);
      }
    }

    method OpenModal(p: Project)
      requires Valid()
      modifies this
      ensures Valid() && State() == Open(old(State()), p)
    {
      selectedProject := Some(p);
      isModalOpen := true;
    }

    method CloseModal()
      requires Valid()
      modifies this
      ensures Valid() && State() == Close(old(State()))
    {
      isModalOpen := false;
      selectedProject := None;
    }
  }
}
