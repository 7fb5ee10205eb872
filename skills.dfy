/** The skills section: the skill list grouped by category into a dictionary whose keys
    keep their insertion order, the per-category heading and colour tables, and each
    skill bar's target width. */
module Skills {
  import opened PortfolioTypes
  import Sequences
  import Catalog

  function InCategory(c: SkillCategory): Skill -> bool
  {
    (s: Skill) => s.category == c
  }

  /** The skills of one category, in catalog order. */
  function Group(skills: seq<Skill>, c: SkillCategory): (g: seq<Skill>)
    ensures |g| <= |skills|
    ensures forall s :: s in g ==> s in skills && s.category == c
  {
    Sequences.SelectSound(skills, InCategory(c));
    Sequences.Select(skills, InCategory(c))
  }

  /** The categories that occur in a skill list. */
  function Categories(skills: seq<Skill>): set<SkillCategory>
  {
    set s | s in skills :: s.category
  }

  /** The categories of a skill list in the order of their first occurrence, each once. */
  function FirstOccurrences(skills: seq<Skill>): (keys: seq<SkillCategory>)
    ensures |keys| <= |skills|
    ensures forall c :: c in keys ==> c in Categories(skills)
  {
    if skills == [] then []
    else
      var earlier := FirstOccurrences(skills[..|skills| - 1]);
      var c := skills[|skills| - 1].category;
      if c in earlier then earlier else earlier + [c]
  }

  /** The position of a category's first skill. */
  function FirstIndex(skills: seq<Skill>, c: SkillCategory): (k: nat)
    requires c in Categories(skills)
    ensures k < |skills| && skills[k].category == c
    ensures forall j :: 0 <= j < k ==> skills[j].category != c
  {
    var init := skills[..|skills| - 1];
    if c in Categories(init) then
      var k := FirstIndex(init, c);
      assert init[k] == skills[k];
      assert forall j :: 0 <= j < k ==> init[j] == skills[j];
      k
    else
      assert forall j :: 0 <= j < |init| ==> skills[j] == init[j] && init[j] in init;
      |skills| - 1
  }

  /** `skills.reduce(...)`: walks the list once, creating a category's array the first time
      the category is seen (which also fixes the key's position in the dictionary's
      insertion order) and pushing each skill onto its category's array. The keys are exactly
      the categories that occur, each group holds its category's skills in catalog order, and
      the keys are ordered by first occurrence. */
  method GroupSkills(skills: seq<Skill>) returns (groups: map<SkillCategory, seq<Skill>>, order: seq<SkillCategory>)
    ensures groups.Keys == Categories(skills)
    ensures forall c :: c in groups ==> groups[c] == Group(skills, c)
    ensures order == FirstOccurrences(skills)
  {
    groups, order := map[], [];
    for i := 0 to |skills|
      invariant groups.Keys == Categories(skills[..i])
      invariant forall c :: c in groups ==> groups[c] == Group(skills[..i], c)
      invariant order == FirstOccurrences(skills[..i])
    {
      var skill := skills[i];
      ghost var done := skills[..i];
      assert skills[..i + 1] == done + [skill];
      FirstOccurrencesMembership(done);
      if skill.category !in groups {
        NoEmptyGroups(done, skill.category);
        groups := groups[skill.category := []];
        order := order + [skill.category];
      }
      groups := groups[skill.category := groups[skill.category] + [skill]];
      forall c | c in groups ensures groups[c] == Group(skills[..i + 1], c) {
        GroupAppend(done, skill, c);
      }
    }
    assert skills[..|skills|] == skills;
  }

  /** Appending a skill appends it to its own category's group and to no other. */
  lemma GroupAppend(init: seq<Skill>, x: Skill, c: SkillCategory)
    ensures Group(init + [x], c) == Group(init, c) + (if x.category == c then [x] else [])
  {
    Sequences.SelectAppend(init, [x], InCategory(c));
    assert [x][..0] == [];
  }

  /** A skill is in a category's group exactly when it is in the list with that category,
      so every skill is in its own category's group and in no other. */
  lemma GroupMembership(skills: seq<Skill>, c: SkillCategory, s: Skill)
    ensures s in Group(skills, c) <==> s in skills && s.category == c
  {
    Sequences.SelectMembership(skills, InCategory(c), s);
  }

  /** Only categories that occur get a group, and their groups are never empty. */
  lemma NoEmptyGroups(skills: seq<Skill>, c: SkillCategory)
    ensures c in Categories(skills) <==> Group(skills, c) != []
  {
    if c in Categories(skills) {
      var s :| s in skills && s.category == c;
      GroupMembership(skills, c, s);
    } else if Group(skills, c) != [] {
      GroupMembership(skills, c, Group(skills, c)[0]);
    }
  }

  /** Each group keeps the relative catalog order of its skills. */
  lemma GroupKeepsCatalogOrder(skills: seq<Skill>, c: SkillCategory)
    ensures var g, pos := Group(skills, c), Sequences.Positions(skills, InCategory(c));
      && |pos| == |g|
      && (forall k :: 0 <= k < |pos| ==> pos[k] < |skills| && g[k] == skills[pos[k]])
      && (forall i, j :: 0 <= i < j < |pos| ==> pos[i] < pos[j])
  {
    Sequences.SelectIsOrderedSubsequence(skills, InCategory(c));
  }

  predicate Distinct<T(==)>(xs: seq<T>)
  {
    forall i, j :: 0 <= i < j < |xs| ==> xs[i] != xs[j]
  }

  /** The key order lists every occurring category exactly once. */
  lemma {:induction false} FirstOccurrencesMembership(skills: seq<Skill>)
    ensures Distinct(FirstOccurrences(skills))
    ensures forall c :: c in FirstOccurrences(skills) <==> c in Categories(skills)
  {
    if skills != [] {
      var init := skills[..|skills| - 1];
      FirstOccurrencesMembership(init);
      assert skills == init + [skills[|skills| - 1]];
      assert Categories(skills) == Categories(init) + {skills[|skills| - 1].category};
    }
  }

  /** `keys` lists categories of the list in increasing order of their first skill. */
  ghost predicate OrderedByFirstSkill(skills: seq<Skill>, keys: seq<SkillCategory>)
  {
    && (forall c :: c in keys ==> c in Categories(skills))
    && (forall i, j :: 0 <= i < j < |keys| ==> FirstIndex(skills, keys[i]) < FirstIndex(skills, keys[j]))
  }

  /** The keys are ordered by the position of each category's first skill. */
  lemma {:induction false} FirstOccurrencesOrdered(skills: seq<Skill>)
    ensures OrderedByFirstSkill(skills, FirstOccurrences(skills))
  {
    FirstOccurrencesMembership(skills);
    if skills != [] {
      var init := skills[..|skills| - 1];
      var last := skills[|skills| - 1];
      FirstOccurrencesOrdered(init);
      FirstOccurrencesMembership(init);
      assert skills == init + [last];
      var fo0, fo := FirstOccurrences(init), FirstOccurrences(skills);
      forall c | c in fo0 ensures FirstIndex(skills, c) == FirstIndex(init, c) {
        assert c in Categories(init);
      }
      if last.category !in fo0 {
        assert fo == fo0 + [last.category];
        assert last.category !in Categories(init);
        forall i, j | 0 <= i < j < |fo| ensures FirstIndex(skills, fo[i]) < FirstIndex(skills, fo[j]) {
          assert fo[i] == fo0[i] && fo0[i] in fo0;
          if j < |fo0| {
            assert fo[j] == fo0[j] && fo0[j] in fo0;
            assert OrderedByFirstSkill(init, fo0);
            assert FirstIndex(init, fo0[i]) < FirstIndex(init, fo0[j]);
          } else {
            assert FirstIndex(skills, fo[j]) == |skills| - 1;
            assert FirstIndex(skills, fo[i]) == FirstIndex(init, fo0[i]) < |init|;
          }
        }
      }
    }
  }

  /** All groups laid out in key order, as the section renders them card after card. */
  function Concat(skills: seq<Skill>, keys: seq<SkillCategory>): seq<Skill>
  {
    if keys == [] then [] else Group(skills, keys[0]) + Concat(skills, keys[1..])
  }

  /** The sum of the sizes of the groups listed in `keys`. */
  function TotalSize(skills: seq<Skill>, keys: seq<SkillCategory>): nat
  {
    if keys == [] then 0 else |Group(skills, keys[0])| + TotalSize(skills, keys[1..])
  }

  lemma {:induction false} ConcatLength(skills: seq<Skill>, keys: seq<SkillCategory>)
    ensures |Concat(skills, keys)| == TotalSize(skills, keys)
  {
    if keys != [] {
      ConcatLength(skills, keys[1..]);
    }
  }

  lemma {:induction false} ConcatOfNoSkills(keys: seq<SkillCategory>)
    ensures Concat([], keys) == []
  {
    if keys != [] {
      ConcatOfNoSkills(keys[1..]);
    }
  }

  /** Appending one skill adds it once to the layout when its category is listed (once). */
  lemma {:induction false} ConcatAppend(init: seq<Skill>, x: Skill, keys: seq<SkillCategory>)
    requires Distinct(keys)
    ensures multiset(Concat(init + [x], keys))
         == multiset(Concat(init, keys)) + (if x.category in keys then multiset{x} else multiset{})
  {
    if keys != [] {
      var s := init + [x];
      assert s[..|s| - 1] == init;
      ConcatAppend(init, x, keys[1..]);
      assert keys[0] == x.category ==> x.category !in keys[1..];
    }
  }

  /** With distinct keys that cover every category of the list, the groups laid out in key
      order are a permutation of the list. */
  lemma {:induction false} ConcatIsPermutation(skills: seq<Skill>, keys: seq<SkillCategory>)
    requires Distinct(keys)
    requires forall c :: c in Categories(skills) ==> c in keys
    ensures multiset(Concat(skills, keys)) == multiset(skills)
  {
    if skills == [] {
      ConcatOfNoSkills(keys);
    } else {
      var init, x := skills[..|skills| - 1], skills[|skills| - 1];
      assert skills == init + [x];
      assert Categories(init) <= Categories(skills);
      ConcatIsPermutation(init, keys);
      ConcatAppend(init, x, keys);
    }
  }

  /** The grouping partitions the list: taken in key order the groups hold every skill
      exactly as often as the list does, so no skill is lost or duplicated and the group
      sizes add up to the number of skills. */
  lemma GroupingPartitions(skills: seq<Skill>)
    ensures multiset(Concat(skills, FirstOccurrences(skills))) == multiset(skills)
    ensures TotalSize(skills, FirstOccurrences(skills)) == |skills|
  {
    var keys := FirstOccurrences(skills);
    FirstOccurrencesMembership(skills);
    ConcatIsPermutation(skills, keys);
    ConcatLength(skills, keys);
    assert |multiset(Concat(skills, keys))| == |Concat(skills, keys)|;
  }

  /** The card heading for each category. */
  function Label(c: SkillCategory): (heading: string)
    ensures |heading| > 0
  {
    match c
    case Frontend => "Frontend"
    case Backend => "Backend"
    case Database => "Database"
    case Tools => "Tools & Platforms"
    case Design => "Design"
    case Mobile => "Mobile"
  }

  /** The gradient classes of each category's skill bars. */
  function Color(c: SkillCategory): (classes: string)
    ensures |classes| > 0
  {
    match c
    case Frontend => "from-blue-500 to-blue-600"
    case Backend => "from-green-500 to-green-600"
    case Database => "from-purple-500 to-purple-600"
    case Tools => "from-orange-500 to-orange-600"
    case Design => "from-pink-500 to-pink-600"
    case Mobile => "from-indigo-500 to-indigo-600"
  }

  /** The two tables tell the six categories apart: no two share a heading or a colour. */
  lemma TablesAreInjective(c: SkillCategory, d: SkillCategory)
    ensures Label(c) == Label(d) ==> c == d
    ensures Color(c) == Color(d) ==> c == d
  {
  }

  /** A skill bar animates from width 0% to `level`%. */
  datatype BarWidths = BarWidths(hiddenPercent: int, visiblePercent: int)

  /** What `{skill.yearsOfExperience && <chip/>}` renders: nothing for an absent value, the
      bare number `0` for zero (React prints a falsy number), the "Ny" chip otherwise. */
  datatype YearsSlot = NoChip | StrayZero | Chip(years: real)

  /** One skill's row: name, "level%" text, the years slot, and the bar in its category's
      colour. */
  datatype SkillRow = SkillRow(name: string, levelText: int, years: YearsSlot, colour: string, bar: BarWidths)

  function RenderSkillRow(s: Skill): (row: SkillRow)
    ensures row.name == s.name && row.levelText == s.level
    ensures row.years.Chip? <==> s.yearsOfExperience.Some? && s.yearsOfExperience.value != 0.0
    ensures row.years.Chip? ==> row.years.years == s.yearsOfExperience.value
    ensures row.years.StrayZero? <==> s.yearsOfExperience == Some(0.0)
    ensures row.colour == Color(s.category)
    ensures row.bar.hiddenPercent == 0 && row.bar.visiblePercent == s.level
  {
    var years :=
      match s.yearsOfExperience
      case None => NoChip
      case Some(y) => if y == 0.0 then StrayZero else Chip(y);
    SkillRow(s.name, s.level, years, Color(s.category), BarWidths(0, s.level))
  }

  /** One category's card: its heading and one row per skill of its group, in group order. */
  datatype SkillCard = SkillCard(heading: string, rows: seq<SkillRow>)

  function RenderGroup(c: SkillCategory, group: seq<Skill>): (card: SkillCard)
    ensures card.heading == Label(c)
    ensures |card.rows| == |group|
    ensures forall j :: 0 <= j < |group| ==> card.rows[j] == RenderSkillRow(group[j])
  {
    SkillCard(Label(c), seq(|group|, j requires 0 <= j < |group| => RenderSkillRow(group[j])))
  }

  /** The cards for the keys `keys`, in that order. */
  function Cards(skills: seq<Skill>, keys: seq<SkillCategory>): (cards: seq<SkillCard>)
    ensures |cards| == |keys|
    ensures forall k :: 0 <= k < |keys| ==> cards[k] == RenderGroup(keys[k], Group(skills, keys[k]))
  {
    if keys == [] then [] else [RenderGroup(keys[0], Group(skills, keys[0]))] + Cards(skills, keys[1..])
  }

  /** `Object.entries(groupedSkills).map(...)`: one card per key, in key order. */
  function Section(skills: seq<Skill>): seq<SkillCard>
  {
    Cards(skills, FirstOccurrences(skills))
  }

  /** The number of rows over all cards. */
  function RowCount(cards: seq<SkillCard>): nat
  {
    if cards == [] then 0 else |cards[0].rows| + RowCount(cards[1..])
  }

  lemma {:induction false} CardsRowCount(skills: seq<Skill>, keys: seq<SkillCategory>)
    ensures RowCount(Cards(skills, keys)) == TotalSize(skills, keys)
  {
    if keys != [] {
      CardsRowCount(skills, keys[1..]);
      assert Cards(skills, keys)[1..] == Cards(skills, keys[1..]);
    }
  }

  /** The section draws one row per skill: as many rows as there are skills. */
  lemma SectionShowsEverySkillOnce(skills: seq<Skill>)
    ensures RowCount(Section(skills)) == |skills|
  {
    CardsRowCount(skills, FirstOccurrences(skills));
    GroupingPartitions(skills);
  }

  /** Every card of the section is headed by its category's label and is non-empty, and each
      row's bar is drawn in that category's colour and, for well-formed skills, grows to a
      width within the track. */
  lemma SectionBars(skills: seq<Skill>)
    requires forall s :: s in skills ==> WellFormedSkill(s)
    ensures forall k :: 0 <= k < |Section(skills)| ==>
      && Section(skills)[k].heading == Label(FirstOccurrences(skills)[k])
      && |Section(skills)[k].rows| > 0
    ensures forall k, j :: 0 <= k < |Section(skills)| && 0 <= j < |Section(skills)[k].rows| ==>
      && Section(skills)[k].rows[j].colour == Color(FirstOccurrences(skills)[k])
      && 0 <= Section(skills)[k].rows[j].bar.visiblePercent <= 100
  {
    var keys, cards := FirstOccurrences(skills), Section(skills);
    forall k | 0 <= k < |cards| ensures |cards[k].rows| > 0 {
      assert keys[k] in keys;
      NoEmptyGroups(skills, keys[k]);
    }
    forall k, j | 0 <= k < |cards| && 0 <= j < |cards[k].rows|
      ensures cards[k].rows[j].colour == Color(keys[k])
      ensures 0 <= cards[k].rows[j].bar.visiblePercent <= 100
    {
      var g := Group(skills, keys[k]);
      assert g[j] in g;
    }
  }

  /** The shipped list: every level is a percentage, so every bar of the rendered section
      stays within its track. */
  lemma ShippedSkillLevels()
    ensures forall s :: s in Catalog.Skills ==> WellFormedSkill(s)
    ensures forall k, j :: 0 <= k < |Section(Catalog.Skills)| && 0 <= j < |Section(Catalog.Skills)[k].rows| ==>
      0 <= Section(Catalog.Skills)[k].rows[j].bar.visiblePercent <= 100
  {
    SectionBars(Catalog.Skills);
  }

  /** All six categories occur in the shipped list, so the section shows six non-empty cards. */
  lemma ShippedSkillsFillEveryCategory(c: SkillCategory)
    ensures c in Categories(Catalog.Skills)
    ensures Group(Catalog.Skills, c) != []
  {
    var ss := Catalog.Skills;
    var k := match c
      case Frontend => 0
      case Backend => 8
      case Database => 12
      case Tools => 15
      case Design => 17
      case Mobile => 19;
    assert ss[k].category == c && ss[k] in ss;
    NoEmptyGroups(ss, c);
  }
}
