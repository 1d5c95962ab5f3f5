/**
 * The fixed data of the database seeder: the five categories with their
 * images and twenty item templates each, and the five seed accounts.
 */
module SeedData {

  /** One seed account: `{email, username, password, is_admin}`. */
  datatype SeedUser = SeedUser(email: string, username: string, password: string, isAdmin: bool)

  /** One item template: a title prefix and a price range in whole dollars. */
  datatype Template = Template(titleBase: string, priceMin: int, priceMax: int)

  /** `SEED_USERS`: two administrators and three regular users. */
  const SeedUsers: seq<SeedUser> := [
    SeedUser("admin1@ufl.edu", "admin1", "Passw0rd1!", true),
    SeedUser("admin2@ufl.edu", "admin2", "Passw0rd2!", true),
    SeedUser("user1@ufl.edu", "user1", "UserPass1!", false),
    SeedUser("user2@ufl.edu", "user2", "UserPass2!", false),
    SeedUser("seed_owner@ufl.edu", "seed_owner", "SeedPass!", false)
  ]

  /** The sellers items are dealt to, in round-robin order. */
  const UserEmails: seq<string> := [
    "admin1@ufl.edu",
    "admin2@ufl.edu",
    "user1@ufl.edu",
    "user2@ufl.edu",
    "seed_owner@ufl.edu"
  ]

  /** The categories in the order the seeder visits them. */
  const Categories: seq<string> := ["school", "apparel", "living", "services", "tickets"]

  /** Items created per category. */
  const ItemsPerCategory: nat := 20

  /** `CATEGORY_IMAGES`: the image every seeded item of a category carries. */
  const CategoryImages: map<string, string> := map[
    "school" := "https://images.unsplash.com/photo-1456513080510-7bf3a84b82f8?w=400",
    "apparel" := "https://images.unsplash.com/photo-1521572163474-6864f9cf17ab?w=400",
    "living" := "https://images.unsplash.com/photo-1555041469-a586c61ea9bc?w=400",
    "services" := "https://images.unsplash.com/photo-1556761175-4b46a572b786?w=400",
    "tickets" := "https://images.unsplash.com/photo-1594608661623-aa0bd8a69762?w=400"
  ]

  /** The `school` templates of `ITEM_TEMPLATES`. */
  const SchoolTemplates: seq<Template> := [
    Template("Intro to CS Textbook", 45, 120),
    Template("Calculus Textbook", 50, 100),
    Template("Biology Lab Manual", 25, 60),
    Template("Chemistry Study Guide", 20, 45),
    Template("Physics Notebook Set", 15, 30),
    Template("Graphing Calculator", 60, 100),
    Template("Scientific Calculator", 25, 40),
    Template("Lab Coat", 30, 50),
    Template("Anatomy Atlas", 40, 80),
    Template("Programming Guide", 35, 70),
    Template("Statistics Textbook", 45, 90),
    Template("Engineering Handbook", 50, 95),
    Template("Art Supplies Kit", 30, 60),
    Template("Literature Anthology", 35, 65),
    Template("Psychology Textbook", 40, 85),
    Template("Economics Workbook", 30, 55),
    Template("History Reference", 25, 50),
    Template("Language Dictionary", 20, 45),
    Template("Math Solutions Manual", 35, 70),
    Template("Science Lab Kit", 40, 75)
  ]

  /** The `apparel` templates of `ITEM_TEMPLATES`. */
  const ApparelTemplates: seq<Template> := [
    Template("UF T-Shirt", 15, 25),
    Template("Gators Hoodie", 30, 50),
    Template("UF Baseball Cap", 12, 20),
    Template("Spirit Jersey", 35, 55),
    Template("Sweatpants", 20, 35),
    Template("Athletic Shorts", 15, 28),
    Template("Polo Shirt", 20, 40),
    Template("Windbreaker Jacket", 35, 60),
    Template("Tank Top", 12, 22),
    Template("Long Sleeve Tee", 18, 30),
    Template("Zip-Up Hoodie", 32, 55),
    Template("Track Jacket", 28, 48),
    Template("Sweatshirt", 25, 45),
    Template("Flannel Shirt", 22, 38),
    Template("Denim Jacket", 40, 70),
    Template("Beanie", 10, 18),
    Template("Scarf", 12, 22),
    Template("Backpack", 35, 65),
    Template("Gym Bag", 20, 40),
    Template("Socks Pack", 10, 18)
  ]

  /** The `living` templates of `ITEM_TEMPLATES`. */
  const LivingTemplates: seq<Template> := [
    Template("Mini Fridge", 60, 120),
    Template("Desk Lamp", 15, 35),
    Template("Study Desk", 50, 100),
    Template("Office Chair", 45, 90),
    Template("Bed Frame", 80, 150),
    Template("Mattress Topper", 40, 75),
    Template("Nightstand", 30, 60),
    Template("Bookshelf", 35, 70),
    Template("Floor Lamp", 25, 50),
    Template("Bean Bag Chair", 30, 60),
    Template("Coffee Table", 40, 80),
    Template("TV Stand", 45, 85),
    Template("Storage Bins Set", 20, 40),
    Template("Laundry Basket", 15, 25),
    Template("Shower Caddy", 12, 22),
    Template("Bedding Set", 35, 65),
    Template("Curtains", 20, 40),
    Template("Area Rug", 30, 60),
    Template("Mirror", 25, 45),
    Template("Hangers Pack", 10, 20)
  ]

  /** The `services` templates of `ITEM_TEMPLATES`. */
  const ServicesTemplates: seq<Template> := [
    Template("Tutoring - Calculus", 20, 40),
    Template("Tutoring - Chemistry", 20, 40),
    Template("Tutoring - Physics", 25, 45),
    Template("Essay Editing", 15, 30),
    Template("Resume Review", 20, 35),
    Template("Math Tutoring", 20, 40),
    Template("Programming Help", 30, 50),
    Template("Language Tutoring", 25, 45),
    Template("Test Prep Session", 30, 55),
    Template("Study Group Leader", 15, 30),
    Template("Homework Help", 15, 35),
    Template("Lab Report Editing", 20, 40),
    Template("Presentation Practice", 15, 30),
    Template("Writing Workshop", 25, 45),
    Template("Career Counseling", 30, 50),
    Template("Interview Prep", 25, 45),
    Template("Photography Session", 40, 80),
    Template("Graphic Design", 35, 70),
    Template("Web Design Help", 40, 75),
    Template("Music Lessons", 30, 60)
  ]

  /** The `tickets` templates of `ITEM_TEMPLATES`. */
  const TicketsTemplates: seq<Template> := [
    Template("Football Game Tickets", 40, 80),
    Template("Basketball Game Tickets", 25, 50),
    Template("Baseball Game Tickets", 15, 30),
    Template("Concert Tickets", 30, 70),
    Template("Theater Show Tickets", 20, 45),
    Template("Comedy Show Tickets", 15, 35),
    Template("Music Festival Pass", 50, 80),
    Template("Museum Pass", 10, 20),
    Template("Movie Tickets", 10, 25),
    Template("Sporting Event Tickets", 30, 60),
    Template("Orchestra Tickets", 20, 40),
    Template("Dance Performance", 15, 35),
    Template("Art Exhibition Pass", 12, 25),
    Template("Guest Lecture Tickets", 10, 20),
    Template("Workshop Pass", 15, 30),
    Template("Seminar Access", 20, 40),
    Template("Conference Tickets", 30, 60),
    Template("Game Night Pass", 10, 20),
    Template("Club Event Tickets", 15, 30),
    Template("Social Event Pass", 12, 25)
  ]

  /** `ITEM_TEMPLATES`: twenty templates per category. */
  const ItemTemplates: map<string, seq<Template>> := map[
    "school" := SchoolTemplates,
    "apparel" := ApparelTemplates,
    "living" := LivingTemplates,
    "services" := ServicesTemplates,
    "tickets" := TicketsTemplates
  ]
}
