/** The project detail overlay: a pure render decision from the selected project (possibly
    none), the open flag and the close callback to what is shown. */
module ProjectModal {
  import opened PortfolioTypes

  /** The sections of an open overlay. `H` is the type of the `onClose` callback it was given;
      the backdrop and the close button both carry it. */
  datatype Overlay<H> = Overlay(
    title: string,
    image: string,
    headerChips: seq<string>,
    stats: Option<Stats>,
    description: string,
    technologies: seq<string>,
    challengesAndSolutions: Option<(seq<string>, seq<string>)>,
    liveLink: Option<string>,
    codeLink: Option<string>,
    onBackdropClick: H,
    onCloseButton: H)

  /** The component's output: `Null` when it returns `null`, otherwise an animated presence
      region that holds the overlay or nothing. */
  datatype View<H> = Null | Presence(overlay: Option<Overlay<H>>)

  /** An optional string used as a JSX condition: both an absent value and the empty string
      are falsy, so the element after `&&` is not rendered for either. */
  predicate Truthy(s: Option<string>)
  {
    s.Some? && s.value != ""
  }

  /** `technologies.slice(0, 3)`: the first three entries, or all of them when there are fewer. */
  function FirstThree(techs: seq<string>): (r: seq<string>)
    ensures |r| == if |techs| < 3 then |techs| else 3
    ensures r <= techs
  {
    if |techs| <= 3 then techs else techs[..3]
  }

  /** A link button: the URL when it is truthy, nothing otherwise. */
  function LinkButton(url: Option<string>): (r: Option<string>)
    ensures r.Some? <==> Truthy(url)
    ensures r.Some? ==> r == url
  {
    if Truthy(url) then url else None
  }

  /** The render decision. With no project the component returns `null` whatever `isOpen` is;
      with a project the overlay is present exactly while `isOpen`. Inside it the stats panel
      shows for any `stats` object, the challenges/solutions block only when both lists are
      present, each link button only for a truthy URL, the header the first three
      technologies and the "Technologies Used" list all of them, and both the backdrop and the
      close button call `onClose`. */
  function Render<H>(project: Option<Project>, isOpen: bool, onClose: H): (v: View<H>)
    ensures v.Null? <==> project.None?
    ensures v.Presence? ==> (v.overlay.Some? <==> isOpen)
    ensures v.Presence? && v.overlay.Some? ==>
      var p, o := project.value, v.overlay.value;
      && o.title == p.title && o.description == p.description && o.image == p.image
      && (o.stats.Some? <==> p.stats.Some?) && (o.stats.Some? ==> o.stats == p.stats)
      && (o.challengesAndSolutions.Some? <==> p.challenges.Some? && p.solutions.Some?)
      && (o.challengesAndSolutions.Some? ==>
            o.challengesAndSolutions.value == (p.challenges.value, p.solutions.value))
      && (o.liveLink.Some? <==> Truthy(p.liveUrl)) && (o.liveLink.Some? ==> o.liveLink == p.liveUrl)
      && (o.codeLink.Some? <==> Truthy(p.githubUrl)) && (o.codeLink.Some? ==> o.codeLink == p.githubUrl)
      && o.headerChips <= p.technologies
      && |o.headerChips| == (if |p.technologies| < 3 then |p.technologies| else 3)
      && o.technologies == p.technologies
      && o.onBackdropClick == onClose && o.onCloseButton == onClose
  {
    match project
    case None => Null
    case Some(p) =>
      if !isOpen then Presence(None)
      else
        var both :=
          if p.challenges.Some? && p.solutions.Some?
          then Some((p.challenges.value, p.solutions.value)) else None;
        Presence(Some(Overlay(
          p.title, p.image, FirstThree(p.technologies), p.stats, p.description, p.technologies,
          both, LinkButton(p.liveUrl), LinkButton(p.githubUrl), onClose, onClose)))
  }

  /** Whether any overlay is on screen. */
  predicate OverlayShown<H>(v: View<H>)
  {
    v.Presence? && v.overlay.Some?
  }

  /** Nothing is shown without a project, or with a project while the overlay is closed. */
  lemma NothingShownUnlessOpen<H>(project: Option<Project>, isOpen: bool, onClose: H)
    ensures OverlayShown(Render(project, isOpen, onClose)) <==> project.Some? && isOpen
  {
  }
}
