# Portfolio site: verified model of its interactive logic

This project models the stateful and rule-driven parts of a single-page developer portfolio
(a React front end) and proves properties about them:

- **Project gallery** (`Projects`): a filter key (`all` or one of seven project categories)
  selects an order-preserving sub-list of the project catalog. A "View Details" click selects a
  project and opens the detail overlay, and closing the overlay clears the selection. The
  component state lives in the class `Projects.Gallery`, whose handlers are proved against pure
  transition functions. Those functions preserve the invariant tying the visible list to the
  active filter.
- **Project detail overlay** (`ProjectModal`): a pure render decision. It takes the selected
  project (possibly none), the open flag and the close callback, and decides which sections
  are shown.
- **Testimonial carousel** (`Testimonials`): an index into the testimonial list. The next and
  previous buttons move it with wrap-around, and the dots jump to a position. It lives in the
  class `Testimonials.Carousel`. JavaScript's truncating `%` is modelled explicitly.
- **Skill grouping** (`Skills`): the `reduce` that builds a category-to-skills dictionary by
  pushing in place is a loop proved against its specification. The grouping partitions the
  list, keeps catalog order inside each group, creates no empty group, and orders its keys by
  first occurrence, because a JavaScript object keeps non-numeric string keys in insertion
  order (ECMA-262, section 10.1.11.1, OrdinaryOwnPropertyKeys). The section also includes the
  heading and colour tables and the bar width.
- **Contact form** (`Contact`): four text fields, a submitting flag and a status. The two
  deferred callbacks that `handleSubmit` schedules become explicit events. Two counters of
  pending callbacks stand for the browser's timer queue. The class `Contact.ContactForm`
  holds the state.

The entities come from `src/types/index.ts` (module `PortfolioTypes`). The shipped catalogs
in `src/data/portfolio.ts` are constants (module `Catalog`), so lemmas can state facts about
the real data. A generic filter, `Sequences.Select`, with its membership, order, idempotence
and append lemmas, serves both the gallery and the skill grouping.

JavaScript truthiness is modelled where the code relies on it:

- A JSX condition `x && <...>` on an optional string hides the element for an absent value
  and for the empty string.
- On an object or an array it shows the element whatever the contents are.

The code therefore hides the link buttons for `""` as well as for a missing URL. The model
follows the code: "shown exactly when the URL is truthy".

## Model

| member | source | states |
|---|---|---|
| Sequences.SelectMembership | src/components/Projects.tsx:36 | an element is in `filter(xs, keep)` exactly when it is in `xs` and `keep` accepts it |
| Sequences.SelectSound | src/components/Projects.tsx:36 | everything `filter` keeps comes from the input and is accepted |
| Sequences.SelectIsOrderedSubsequence | src/components/Projects.tsx:36 | the filtered list is the input's elements at strictly increasing positions, and every kept position is among them |
| Sequences.SelectIdempotent | src/components/Projects.tsx:36 | filtering a filtered list again changes nothing |
| Sequences.SelectAppend | src/components/Skills.tsx:34 | filtering a concatenation is concatenating the filtered parts |
| Projects.OfCategory | src/components/Projects.tsx:36 | `projects.filter(project => project.category === category)`: no longer than the catalog, and every project it keeps is a catalog project of that category |
| Projects.Filtered | src/components/Projects.tsx:33-36 | the visible list for a key: no longer than the catalog, and every visible project is a catalog project matching the key (the converse is `FilteredMembership`) |
| Projects.FilteredIsSelection | src/components/Projects.tsx:33-36 | the `all` branch, which returns the catalog unfiltered, equals filtering with a predicate that accepts every project, so both branches are one selection |
| Projects.FilteredMembership | src/components/Projects.tsx:31-38 | a project is visible exactly when it is in the catalog and matches the key; for `all` that is every catalog project |
| Projects.FilteredIsOrderedSubsequence | src/components/Projects.tsx:35-36 | the visible list is a subsequence of the catalog in catalog order, and it contains every matching project |
| Projects.FilteredIdempotent | src/components/Projects.tsx:31-38 | filtering the visible list again with the same key gives the same list |
| Projects.ShippedCatalogHasNoEmptyFilter | src/data/portfolio.ts:3-116 | with the shipped catalog every key, `all` and each of the seven categories, shows at least one project |
| Projects.ApplyFilter | src/components/Projects.tsx:31-38 | `handleFilter` preserves the gallery invariant: the visible list is the active key's, and the overlay is open exactly when a project is selected |
| Projects.Open | src/components/Projects.tsx:40-43 | `openModal` selects the clicked project and sets the open flag; the active filter and the filtered list stay; the gallery invariant is preserved |
| Projects.OpenShowsProject | src/components/Projects.tsx:40-43 | after "View Details" on a project, the overlay is on screen with that project's title, description and technologies, and `closeModal` sits behind its backdrop and its close button |
| Projects.Close | src/components/Projects.tsx:45-48 | `closeModal` preserves the gallery invariant |
| Projects.ApplyFilterEffect | src/components/Projects.tsx:31-38 | filtering sets the key and its list, leaves the selection and the open flag unchanged, and applying the same key twice equals applying it once |
| Projects.OpenThenCloseRestores | src/components/Projects.tsx:40-48 | from any consistent closed state, opening and then closing the overlay restores exactly the previous state |
| Projects.Step | src/components/Projects.tsx:31-48 | every gallery event preserves the gallery invariant |
| Projects.Overlay | src/components/Projects.tsx:241-245 | the gallery's overlay is on screen exactly when a project is selected and the open flag is set, and then it shows the selected project's title |
| Projects.OverlayClicksClose | src/components/Projects.tsx:241-245 | while open, the overlay shows the selected project; the event behind its backdrop and behind its close button is `closeModal`, and after it the overlay renders nothing |
| Projects.ShowsEmptyMessage | src/components/Projects.tsx:226 | (predicate, no contract) the message condition `filteredProjects.length === 0`; its meaning is proved by `EmptyMessageIffNoMatch` |
| Projects.EmptyMessageIffNoMatch | src/components/Projects.tsx:226 | the "No projects found" message shows exactly when no catalog project matches the active filter |
| Projects.CardTags | src/components/Projects.tsx:181-193 | a card shows the first min(3, n) technologies, a "+k more" chip exactly when n > 3, and the chips plus k make up all n |
| Projects.RenderCard | src/components/Projects.tsx:147-219 | a card shows the title, description and image; the "Featured" badge exactly when the project is featured; the tag preview of `CardTags`; and the "Live Demo" and "Code" links exactly for truthy URLs, each carrying its URL |
| Projects.Highlighted | src/components/Projects.tsx:109-117 | one highlight flag per filter button, the button being highlighted when its key is the active filter (line 114); its property is `OneButtonPerKey` |
| Projects.OneButtonPerKey | src/components/Projects.tsx:20-29 | every filter key has exactly one button, and that button is highlighted when the key is active; no two buttons share a key, so at most one button is highlighted (line 114) |
| Projects.Gallery.constructor | src/components/Projects.tsx:10-13 | initially the filter is `all`, the whole catalog is visible, nothing is selected and the overlay is closed |
| Projects.Gallery.HandleFilter | src/components/Projects.tsx:31-38 | the new state is `ApplyFilter` of the old state, and the invariant holds |
| Projects.Gallery.OpenModal | src/components/Projects.tsx:40-43 | the new state is `Open` of the old state |
| Projects.Gallery.CloseModal | src/components/Projects.tsx:45-48 | the new state is `Close` of the old state |
| ProjectModal.FirstThree | src/components/3D/ProjectModal.tsx:116 | `slice(0, 3)` is a prefix of length min(3, n) |
| ProjectModal.LinkButton | src/components/3D/ProjectModal.tsx:221-241 | a link button is rendered exactly for a truthy URL, and it carries that URL |
| ProjectModal.Render | src/components/3D/ProjectModal.tsx:12-253 | nothing without a project; the overlay exactly while open; each optional section exactly when its fields allow; the link buttons carry their URLs; both close controls carry `onClose` (itemised below) |
| ProjectModal.NothingShownUnlessOpen | src/components/3D/ProjectModal.tsx:12-70 | an overlay is on screen exactly when there is a project and `isOpen` holds |
| Testimonials.JsRem | src/components/Testimonials.tsx:15-19 | JavaScript's `%`: the result differs from the dividend by a multiple of the divisor, is smaller in magnitude than the divisor, and has the sign of the dividend, which together fix it uniquely |
| Testimonials.Next | src/components/Testimonials.tsx:14-16 | for an index in range, the result is in range: i + 1, or 0 after the last entry |
| Testimonials.Prev | src/components/Testimonials.tsx:18-20 | for an index in range, the result is in range: i - 1, or N - 1 before the first entry |
| Testimonials.PrevNextInverse | src/components/Testimonials.tsx:14-20 | previous after next, and next after previous, both return the original index |
| Testimonials.Advance | src/components/Testimonials.tsx:15 | the index after k presses of next; it stays in range for an index in range |
| Testimonials.AdvanceRotates | src/components/Testimonials.tsx:15 | k presses of next move the index to (i + k) mod N |
| Testimonials.NextCycleLength | src/components/Testimonials.tsx:15 | N presses of next return to the start, and no smaller positive number of presses does |
| Testimonials.Dots | src/components/Testimonials.tsx:194-201 | one dot per testimonial, highlighted when `index === activeIndex`; its property is `ExactlyOneActiveDot` |
| Testimonials.ExactlyOneActiveDot | src/components/Testimonials.tsx:194-201 | with the index in range, exactly one dot is highlighted, the one at the index |
| Testimonials.StarKeys | src/components/Testimonials.tsx:122 | `[...Array(rating)].map((_, i) => ...)` draws `rating` stars, the i-th keyed by i |
| Testimonials.RenderCard | src/components/Testimonials.tsx:113-160 | the card shows as many stars as the rating; the content, avatar, name, role and company; and the project-type chip, holding the project type, exactly for a truthy project type |
| Testimonials.ShippedCarousel | src/data/portfolio.ts:177-218 | the shipped list has four testimonials, each rated 1 to 5; next from the last gives the first, previous from the first gives the last |
| Testimonials.Carousel.constructor | src/components/Testimonials.tsx:8 | the initial index is 0, which is in range for a non-empty list |
| Testimonials.Carousel.NextTestimonial | src/components/Testimonials.tsx:14-16 | the index becomes `Next` of the old index and stays in range |
| Testimonials.Carousel.PrevTestimonial | src/components/Testimonials.tsx:18-20 | the index becomes `Prev` of the old index and stays in range |
| Testimonials.Carousel.SelectDot | src/components/Testimonials.tsx:194-197 | a dot click sets the index to the dot's position, which is in range |
| Testimonials.Carousel.ActiveDots | src/components/Testimonials.tsx:194-201 | in every valid state, the dots row has one dot per testimonial; exactly one dot is highlighted, the current testimonial's |
| Testimonials.Carousel.Current | src/components/Testimonials.tsx:22 | `testimonials[activeIndex]` is an entry of the list in every valid state |
| Skills.Group | src/components/Skills.tsx:30-36 | a category's skills in catalog order: no more than the list, each from the list and of that category |
| Skills.Categories | src/components/Skills.tsx:31-33 | (function, no contract) the categories occurring in the list, the keys the reduce creates |
| Skills.FirstOccurrences | src/components/Skills.tsx:30-36 | the key insertion order: no longer than the list, and listing only categories that occur |
| Skills.FirstIndex | src/components/Skills.tsx:31-33 | the position where a category's array is created: the first skill of that category |
| Skills.GroupSkills | src/components/Skills.tsx:30-36 | the keys are exactly the categories present; each group is its category's skills in catalog order; the keys come in first-occurrence order |
| Skills.GroupAppend | src/components/Skills.tsx:34 | pushing a skill extends its own category's group and no other |
| Skills.GroupMembership | src/components/Skills.tsx:30-36 | a skill is in a category's group exactly when it has that category, so it is in its own group and in no other |
| Skills.NoEmptyGroups | src/components/Skills.tsx:31-33 | a category has a key exactly when its group is non-empty |
| Skills.GroupKeepsCatalogOrder | src/components/Skills.tsx:34 | each group lists its skills at strictly increasing catalog positions |
| Skills.FirstOccurrencesMembership | src/components/Skills.tsx:30-36 | the key order (iterated at line 104) lists each present category exactly once |
| Skills.FirstOccurrencesOrdered | src/components/Skills.tsx:30-36 | key a comes before key b exactly when a's first skill comes before b's |
| Skills.ConcatIsPermutation | src/components/Skills.tsx:30-36 | for any distinct key list covering the present categories, the groups taken in that order are a permutation of the skill list |
| Skills.GroupingPartitions | src/components/Skills.tsx:30-36 | the groups in key order are a permutation of the skill list, and their sizes sum to the number of skills |
| Skills.Label | src/components/Skills.tsx:12-19 | every category has a non-empty heading |
| Skills.Color | src/components/Skills.tsx:21-28 | every category has non-empty gradient classes |
| Skills.TablesAreInjective | src/components/Skills.tsx:12-28 | no two categories share a heading or a colour |
| Skills.RenderSkillRow | src/components/Skills.tsx:116-139 | a row shows the skill's name and level; the years chip exactly for a truthy (non-zero) value, a stray "0" for zero, nothing when absent; the bar in its category's colour, animating from 0% to `level`% |
| Skills.RenderGroup | src/components/Skills.tsx:104-116 | a card is headed by its category's label and has one row per skill of its group, in group order |
| Skills.Section | src/components/Skills.tsx:104 | (function, no contract) the rendered section: one card per category, in first-appearance order; `SectionShowsEverySkillOnce` and `SectionBars` state its properties |
| Skills.Cards | src/components/Skills.tsx:104 | one card per key, in key order, for the key's group |
| Skills.CardsRowCount | src/components/Skills.tsx:104-116 | the cards for a key list hold as many rows as those keys' groups hold skills |
| Skills.SectionShowsEverySkillOnce | src/components/Skills.tsx:30-116 | the rendered section has exactly one row per skill |
| Skills.SectionBars | src/components/Skills.tsx:104-139 | every card is headed by its category's label and is non-empty; every row's bar uses that category's colour and, for well-formed skills, grows to a width within 0..100% |
| Skills.ShippedSkillLevels | src/data/portfolio.ts:220-241 | every shipped skill level is a percentage, so every bar of the shipped section stays within its track |
| Skills.ShippedSkillsFillEveryCategory | src/data/portfolio.ts:220-241 | all six categories occur in the shipped list, each with a non-empty group |
| Contact.Set | src/components/Contact.tsx:14-19 | the named field takes the new value, and the other three keep theirs |
| Contact.Step | src/components/Contact.tsx:14-35 | one event: the status changes only through the first callback (to success) or the second (to idle), and only a change event edits a field, the other events keeping or clearing all four |
| Contact.ChangeTouchesOnlyItsField | src/components/Contact.tsx:14-19 | a change event rewrites only its field; the flag, the status and the pending callbacks are unchanged |
| Contact.SubmitEffect | src/components/Contact.tsx:21-23 | submit raises the flag and schedules the first callback, changing neither the fields nor the status |
| Contact.FirstTimerEffect | src/components/Contact.tsx:26-29 | the first callback drops the flag, sets the status to success, clears all four fields and schedules the second callback |
| Contact.SecondTimerEffect | src/components/Contact.tsx:31-33 | the second callback sets the status back to idle and leaves the fields and the flag unchanged |
| Contact.SubmitEnabled | src/components/Contact.tsx:114-176 | (predicate, no contract) the browser submits only when the button is not disabled (line 176) and every `required` field is non-empty |
| Contact.Allowed | src/components/Contact.tsx:21-176 | (predicate, no contract) edits at any time, a submit only while enabled, a callback only while one is pending |
| Contact.ShowsSuccessBanner | src/components/Contact.tsx:100 | (predicate, no contract) the banner condition `submitStatus === 'success'`; `RunKeepsInvariant` and `SubmissionCycle` state when it holds |
| Contact.NeverError | src/components/Contact.tsx:12-35 | from a non-error state (the initial one among them), no run of events ever reaches the error status |
| Contact.Deliver | src/components/Contact.tsx:21-35 | every event as the page delivers it keeps the form invariant (at most one submission in flight, flag up exactly while it is, banner only with a pending hide) |
| Contact.RunKeepsInvariant | src/components/Contact.tsx:21-35 | every run of deliverable events from a state satisfying the form invariant (the initial state among them) keeps it. At most one submission is in flight, and the flag is up exactly while its callback is pending. Submit is disabled while the flag is up, so no second submission can start. While the banner shows, the callback that hides it is pending |
| Contact.SubmissionCycle | src/components/Contact.tsx:21-35 | a filled idle form goes through submit, then success with the banner and empty fields, then idle, and ends exactly in the initial state |
| Contact.ContactForm.constructor | src/components/Contact.tsx:5-12 | initially all four fields are empty, the flag is down, the status is idle and nothing is scheduled |
| Contact.ContactForm.HandleChange | src/components/Contact.tsx:14-19 | the new state is `Step` of the old state on the change event |
| Contact.ContactForm.HandleSubmit | src/components/Contact.tsx:21-24 | the new state is `Step` of the old state on submit |
| Contact.ContactForm.FirstTimerFires | src/components/Contact.tsx:26-30 | the new state is `Step` of the old state on the first callback |
| Contact.ContactForm.SecondTimerFires | src/components/Contact.tsx:31-33 | the new state is `Step` of the old state on the second callback |

What `ProjectModal.Render` states:

- With no project the component renders nothing, whatever `isOpen` is.
- With a project, the overlay is present exactly while `isOpen` holds.
- Inside the overlay, the stats panel shows exactly for a present `stats` object.
- The challenges/solutions block shows exactly when both lists are present.
- Each link button shows exactly for a truthy URL, and links to that URL.
- The header chips are the first min(3, n) technologies, and the "Technologies Used" list is all of them in order.
- The backdrop and the close button both carry `onClose`.

## Left out

- The 3D scene files, animation variants, viewport triggers and `AnimatePresence` timing are not modelled. They are floating-point, randomised or third-party runtime behaviour.
- The other page sections (hero, about, experience, services, blog, achievements, footer, floating links, the app shell) are not modelled. They render constant data and scroll the DOM.
- Projects.FilterKey: the source's filter key is a string. The model uses a datatype with one value per filter button, which are the only keys the buttons pass.
- Projects.Gallery.constructor: the model takes the catalog as a parameter; the source imports the shipped catalog.
- Testimonials.Carousel.constructor: requires a non-empty list, because the component reads `testimonials[activeIndex]` on first render. With an empty list every `%` divides by zero and the card reads `undefined`.
- Testimonials.RenderCard: requires a non-negative rating, because `[...Array(rating)]` throws for a negative length.
- Projects.RenderCard: the card's "View Details" button is modelled as the `ViewDetails` gallery event, not as a field of the card.
- ProjectModal.Render: the stats panel's three lines are not modelled. The overlay carries the `stats` object itself; an absent entry renders as an empty value slot, since React renders nothing for `undefined`.
- The skill icon is not modelled; the skills section does not display it. Of the years chip only its presence and value are modelled (`Skills.RenderSkillRow`), not its "y" suffix text.
- Skills.GroupSkills: the shipped list's concrete key order is not computed. Its general properties are proved for every list, and every category's presence is proved for the shipped list.
- Contact: the real 2000 ms and 5000 ms delays are not modelled. Callbacks fire as events whenever one is pending, in any order relative to user events.
- Contact.SubmitEnabled: the browser's constraint validation is modelled as "all four fields non-empty". The `type="email"` format check on the email field is not modelled.
- Contact: the button's "Sending..." label and spinner are not modelled. They follow the same flag as `disabled`.
- PortfolioTypes: `Testimonial.rating` and `Skill.level` are JavaScript numbers but are modelled as integers, and `yearsOfExperience` as a real. A fractional rating (for which `Array(rating)` throws), a fractional level (rendered as e.g. "72.5%") and a `NaN` years value (rendered as "NaN") are not representable.
