/** The portfolio's record types: projects, testimonials and skills, with their closed
    category enumerations. Optional TypeScript fields (`field?: T`) become `Option<T>`. */
module PortfolioTypes {

  datatype Option<+T> = None | Some(value: T)

  /** The seven project categories. */
  datatype ProjectCategory = Business | Portfolio | Landing | Webapp | Wordpress | Ecommerce | Saas

  /** The optional statistics triple of a project; each entry may itself be absent. */
  datatype Stats = Stats(users: Option<string>, performance: Option<string>, conversion: Option<string>)

  datatype Project = Project(
    id: int,
    title: string,
    description: string,
    image: string,
    technologies: seq<string>,
    category: ProjectCategory,
    liveUrl: Option<string>,
    githubUrl: Option<string>,
    featured: bool,
    stats: Option<Stats>,
    challenges: Option<seq<string>>,
    solutions: Option<seq<string>>)

  datatype Testimonial = Testimonial(
    id: int,
    name: string,
    role: string,
    company: string,
    content: string,
    avatar: string,
    rating: int,
    projectType: Option<string>)

  /** The six skill categories. */
  datatype SkillCategory = Frontend | Backend | Tools | Design | Mobile | Database

  /** A skill. `level` is a percentage; years of experience can be fractional (2.5). */
  datatype Skill = Skill(name: string, level: int, category: SkillCategory, icon: Option<string>, yearsOfExperience: Option<real>)

  /** The catalog invariants of the data model: a skill level is a percentage and a rating
      is between one and five stars. */
  predicate WellFormedSkill(s: Skill) { 0 <= s.level <= 100 }

  predicate WellFormedTestimonial(t: Testimonial) { 1 <= t.rating <= 5 }
}
