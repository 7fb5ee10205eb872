/** The shipped content catalog: the seven projects, four testimonials and twenty skills
    that the portfolio renders, as constants so that properties can be checked on them. */
module Catalog {
  import opened PortfolioTypes

  const Projects: seq<Project> := [
    Project(1, "ModernBiz Corporate Website",
      "A fully responsive corporate website built for a Mumbai-based consulting firm. Features include service showcases, team profiles, contact integration, and advanced analytics dashboard.",
      "https://images.pexels.com/photos/3184287/pexels-photo-3184287.jpeg?auto=compress&cs=tinysrgb&w=500",
      ["React", "Tailwind CSS", "Node.js", "Firebase", "Framer Motion"], Business,
      Some("https://example.com"), Some("https://github.com/example/project1"), true,
      Some(Stats(Some("10K+"), Some("98%"), Some("15%"))),
      Some(["Complex data visualization", "Real-time updates", "Mobile optimization"]),
      Some(["Custom chart components", "WebSocket integration", "Progressive Web App"])),
    Project(2, "Creative Designer Portfolio",
      "An elegant portfolio website for a graphic designer featuring animated galleries, project showcases, client testimonials, and interactive 3D elements.",
      "https://images.pexels.com/photos/196644/pexels-photo-196644.jpeg?auto=compress&cs=tinysrgb&w=500",
      ["HTML", "CSS", "JavaScript", "GSAP", "Three.js"], Portfolio,
      Some("https://example.com"), Some("https://github.com/example/project2"), true,
      Some(Stats(Some("5K+"), Some("95%"), Some("25%"))), None, None),
    Project(3, "FitLife Gym Landing Page",
      "High-converting landing page for a fitness center in Delhi with membership forms, class schedules, trainer profiles, and integrated payment system.",
      "https://images.pexels.com/photos/1552252/pexels-photo-1552252.jpeg?auto=compress&cs=tinysrgb&w=500",
      ["React", "Tailwind CSS", "Firebase", "Stripe API"], Landing,
      Some("https://example.com"), None, true,
      Some(Stats(Some("8K+"), Some("97%"), Some("35%"))), None, None),
    Project(4, "TaskMaster Web App",
      "A collaborative task management application with real-time updates, team collaboration features, progress tracking, and advanced reporting.",
      "https://images.pexels.com/photos/3184298/pexels-photo-3184298.jpeg?auto=compress&cs=tinysrgb&w=500",
      ["React", "Node.js", "Firebase", "Tailwind CSS", "Socket.io"], Webapp,
      Some("https://example.com"), Some("https://github.com/example/project4"), false,
      Some(Stats(Some("2K+"), Some("94%"), Some("20%"))), None, None),
    Project(5, "Local Restaurant WordPress Site",
      "WordPress website for a traditional Indian restaurant with online menu, reservation system, customer reviews, and food delivery integration.",
      "https://images.pexels.com/photos/262978/pexels-photo-262978.jpeg?auto=compress&cs=tinysrgb&w=500",
      ["WordPress", "PHP", "CSS", "JavaScript", "WooCommerce"], Wordpress,
      Some("https://example.com"), None, true,
      Some(Stats(Some("15K+"), Some("92%"), Some("18%"))), None, None),
    Project(6, "E-Commerce Fashion Store",
      "Modern e-commerce platform for a fashion brand with advanced filtering, wishlist, cart functionality, and secure payment integration.",
      "https://images.pexels.com/photos/1884584/pexels-photo-1884584.jpeg?auto=compress&cs=tinysrgb&w=500",
      ["React", "Node.js", "MongoDB", "Stripe", "Tailwind CSS"], Ecommerce,
      Some("https://example.com"), Some("https://github.com/example/project6"), true,
      Some(Stats(Some("25K+"), Some("96%"), Some("12%"))), None, None),
    Project(7, "SaaS Analytics Dashboard",
      "Comprehensive analytics dashboard for a SaaS platform with real-time data visualization, custom reports, and user management.",
      "https://images.pexels.com/photos/590022/pexels-photo-590022.jpeg?auto=compress&cs=tinysrgb&w=500",
      ["React", "TypeScript", "D3.js", "Node.js", "PostgreSQL"], Saas,
      Some("https://example.com"), Some("https://github.com/example/project7"), true,
      Some(Stats(Some("50K+"), Some("99%"), Some("28%"))), None, None)
  ]

  const Testimonials: seq<Testimonial> := [
    Testimonial(1, "Rajesh Kumar", "Business Owner", "Kumar Consulting",
      "Exceptional work! The website perfectly represents our business and has significantly improved our online presence. Professional, timely, and highly recommended.",
      "https://images.pexels.com/photos/1222271/pexels-photo-1222271.jpeg?auto=compress&cs=tinysrgb&w=100",
      5, Some("Corporate Website")),
    Testimonial(2, "Priya Sharma", "Graphic Designer", "Creative Studio",
      "Amazing portfolio website that showcases my work beautifully. The animations and design are exactly what I envisioned. Thank you for bringing my vision to life!",
      "https://images.pexels.com/photos/1239291/pexels-photo-1239291.jpeg?auto=compress&cs=tinysrgb&w=100",
      5, Some("Portfolio Website")),
    Testimonial(3, "Amit Patel", "Gym Owner", "FitLife Fitness",
      "The landing page has increased our membership inquiries by 300%! Professional design, fast loading, and mobile-friendly. Excellent collaboration throughout the project.",
      "https://images.pexels.com/photos/1681010/pexels-photo-1681010.jpeg?auto=compress&cs=tinysrgb&w=100",
      5, Some("Landing Page")),
    Testimonial(4, "Sneha Gupta", "Restaurant Owner", "Spice Garden",
      "Our online orders increased by 250% after the new website launch. The reservation system works flawlessly and customers love the user experience.",
      "https://images.pexels.com/photos/1130626/pexels-photo-1130626.jpeg?auto=compress&cs=tinysrgb&w=100",
      5, Some("WordPress Site"))
  ]

  const Skills: seq<Skill> := [
    Skill("HTML", 95, Frontend, None, Some(3.0)),
    Skill("CSS", 90, Frontend, None, Some(3.0)),
    Skill("JavaScript", 85, Frontend, None, Some(2.5)),
    Skill("TypeScript", 75, Frontend, None, Some(1.5)),
    Skill("React.js", 80, Frontend, None, Some(2.0)),
    Skill("Next.js", 70, Frontend, None, Some(1.0)),
    Skill("Tailwind CSS", 90, Frontend, None, Some(2.0)),
    Skill("Framer Motion", 75, Frontend, None, Some(1.0)),
    Skill("Node.js", 65, Backend, None, Some(1.5)),
    Skill("Express.js", 60, Backend, None, Some(1.0)),
    Skill("PHP", 55, Backend, None, Some(2.0)),
    Skill("Python", 50, Backend, None, Some(1.0)),
    Skill("Firebase", 70, Database, None, Some(2.0)),
    Skill("MongoDB", 60, Database, None, Some(1.0)),
    Skill("MySQL", 65, Database, None, Some(1.5)),
    Skill("WordPress", 85, Tools, None, Some(2.5)),
    Skill("Git/GitHub", 75, Tools, None, Some(2.0)),
    Skill("Figma", 70, Design, None, Some(2.0)),
    Skill("Canva", 80, Design, None, Some(2.5)),
    Skill("React Native", 55, Mobile, None, Some(0.5))
  ]
}
