/**
 * The static content registry: the record shapes and the literal arrays of
 * navigation links, services, products and blog posts. Records keep the
 * fields that identify an entry; the prose shown on the page (descriptions,
 * long descriptions, excerpts) and a service's React `icon` component are not
 * part of the model.
 */
module Registry {

  datatype NavLink = NavLink(name: string, path: string)

  datatype Service = Service(id: int, title: string, image: string)

  datatype Product = Product(id: int, name: string, description: string, image: string)

  datatype BlogPost = BlogPost(id: int, title: string, date: string, slug: string)

  const NavLinks: seq<NavLink> := [
    NavLink("Home", "/"),
    NavLink("About", "/#about"),
    NavLink("Products", "/products"),
    NavLink("Services", "/services"),
    NavLink("Blog", "/#blog"),
    NavLink("Contact", "/#contact")
  ]

  const ServicesData: seq<Service> := [
    Service(1, "Sterilization Service", "https://picsum.photos/seed/service1/800/600"),
    Service(2, "Equipment Maintenance", "https://picsum.photos/seed/service2/800/600"),
    Service(3, "Infection Control Consulting", "https://picsum.photos/seed/service3/800/600"),
    Service(4, "Support & Training", "https://picsum.photos/seed/service4/800/600")
  ]

  const ProductsData: seq<Product> := [
    Product(1, "BLUVIA Neo", "Advanced Washer Disinfector", "https://picsum.photos/seed/prod1/600/400"),
    Product(2, "EnviroCleanse", "Eco-friendly, broad-spectrum surface disinfectant.", "https://picsum.photos/seed/prod2/600/400"),
    Product(3, "NanoGuard", "Antimicrobial coating for high-touch surfaces.", "https://picsum.photos/seed/prod3/600/400"),
    Product(4, "Calibright", "Portable device for instant equipment calibration.", "https://picsum.photos/seed/prod4/600/400")
  ]

  const BlogPosts: seq<BlogPost> := [
    BlogPost(1, "The Future of Sterilization Technology", "October 26, 2023", "future-of-sterilization-technology"),
    BlogPost(2, "Choosing the Right Disinfectant for Your Facility", "November 15, 2023", "choosing-right-disinfectant"),
    BlogPost(3, "The Importance of Regular Equipment Maintenance", "December 5, 2023", "importance-of-equipment-maintenance")
  ]

  /** Each link's name differs from every other's (the names are the header's React keys). */
  predicate DistinctNames(links: seq<NavLink>)
  {
    forall i, j :: 0 <= i < j < |links| ==> links[i].name != links[j].name
  }

  predicate DistinctPaths(links: seq<NavLink>)
  {
    forall i, j :: 0 <= i < j < |links| ==> links[i].path != links[j].path
  }

  /** Neighbouring ids increase; see IncreasingIdsAreDistinct for the pairwise consequence. */
  predicate IdsIncrease(services: seq<Service>)
  {
    forall i :: 0 <= i < |services| - 1 ==> services[i].id < services[i + 1].id
  }

  predicate DistinctServiceIds(services: seq<Service>)
  {
    forall i, j :: 0 <= i < |services| && 0 <= j < |services| && i != j ==> services[i].id != services[j].id
  }

  predicate DistinctProductIds(products: seq<Product>)
  {
    forall i, j :: 0 <= i < j < |products| ==> products[i].id != products[j].id
  }

  predicate DistinctBlogKeys(posts: seq<BlogPost>)
  {
    forall i, j :: 0 <= i < j < |posts| ==> posts[i].id != posts[j].id && posts[i].slug != posts[j].slug
  }

  /** Ids that increase from each entry to the next increase between any two entries. */
  lemma {:induction false} IncreasingIdsAreOrdered(services: seq<Service>, i: nat, j: nat)
    requires IdsIncrease(services)
    requires i < j < |services|
    ensures services[i].id < services[j].id
    decreases j - i
  {
    if i + 1 < j {
      IncreasingIdsAreOrdered(services, i + 1, j);
    }
  }

  lemma IncreasingIdsAreDistinct(services: seq<Service>)
    requires IdsIncrease(services)
    ensures DistinctServiceIds(services)
  {
    forall i, j | 0 <= i < |services| && 0 <= j < |services| && i != j
      ensures services[i].id != services[j].id
    {
      if i < j { IncreasingIdsAreOrdered(services, i, j); }
      else { IncreasingIdsAreOrdered(services, j, i); }
    }
  }

  /** Six links with distinct names and distinct paths. */
  lemma NavLinksWellFormed()
    ensures |NavLinks| == 6
    ensures DistinctNames(NavLinks) && DistinctPaths(NavLinks)
  {
  }

  /** Four services, ids 1 to 4 in order, hence pairwise distinct. */
  lemma ServicesWellFormed()
    ensures |ServicesData| == 4
    ensures forall i :: 0 <= i < |ServicesData| ==> ServicesData[i].id == i + 1
    ensures IdsIncrease(ServicesData) && DistinctServiceIds(ServicesData)
  {
    IncreasingIdsAreDistinct(ServicesData);
  }

  lemma ProductsWellFormed()
    ensures |ProductsData| == 4
    ensures DistinctProductIds(ProductsData)
  {
  }

  lemma BlogPostsWellFormed()
    ensures |BlogPosts| == 3
    ensures DistinctBlogKeys(BlogPosts)
  {
  }
}
