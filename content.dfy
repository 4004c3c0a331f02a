/** The site's post store (`src/lib/content.ts`): one post read from
    `content/blog/` with its defaults, every post newest first, and the
    slugs. */
module Content {
  import opened Wrappers
  import opened JsString
  import opened Files
  import opened Sorting

  /** The front-matter fields a post reads, as gray-matter hands them over;
      `None` is a missing field. */
  datatype FrontData = FrontData(title: Option<string>, date: Option<string>, description: Option<string>,
                                 category: Option<string>, tags: Option<seq<string>>, readTime: Option<string>,
                                 keyTakeaways: Option<seq<string>>, originalSource: Option<string>,
                                 originalLink: Option<string>)

  /** `matter(text)`: the front matter and the body after it. */
  datatype Matter = Matter(data: FrontData, content: string)

  /** gray-matter as a function of the file text; `None` when it throws. */
  type MatterParser = string -> Option<Matter>

  datatype BlogPost = BlogPost(slug: string, title: string, date: string, description: string,
                               category: string, tags: seq<string>, readTime: string, content: string,
                               keyTakeaways: Option<seq<string>>, originalSource: Option<string>,
                               originalLink: Option<string>)

  /** `field || fallback` on a front-matter string: missing or empty falls back. */
  function Or(field: Option<string>, fallback: string): (v: string)
    ensures field.Some? && field.value != "" ==> v == field.value
    ensures field.None? || field.value == "" ==> v == fallback
  {
    if field.Some? && field.value != "" then field.value else fallback
  }

  // ---------------------------------------------------------------------
  // `getPostBySlug`

  /** Which file `getPostBySlug(slug)` reads: `<slug>.mdx` when it exists,
      else `<slug>.md` when that exists, else none. */
  function PostFile(blog: Dir, slug: string): (file: Option<string>)
    ensures file.Some? ==> file.value in blog
    ensures file.None? <==> slug + ".mdx" !in blog && slug + ".md" !in blog
    ensures slug + ".mdx" in blog ==> file == Some(slug + ".mdx")
    ensures slug + ".mdx" !in blog && slug + ".md" in blog ==> file == Some(slug + ".md")
  {
    if slug + ".mdx" in blog then Some(slug + ".mdx")
    else if slug + ".md" in blog then Some(slug + ".md")
    else None
  }

  /** The post made of a parsed file: front matter over the defaults. */
  function PostOf(slug: string, m: Matter, nowIso: string): (p: BlogPost)
    ensures p.slug == slug && p.content == m.content
    ensures m.data.title.None? || m.data.title.value == "" ==> p.title == slug
    ensures m.data.description.None? || m.data.description.value == "" ==> p.description == ""
    ensures m.data.category.None? || m.data.category.value == "" ==> p.category == "Uncategorized"
    ensures m.data.tags.None? ==> p.tags == []
    ensures m.data.readTime.None? || m.data.readTime.value == "" ==> p.readTime == "5 min read"
    ensures m.data.date.None? || m.data.date.value == "" ==> p.date == nowIso
    ensures m.data.title.Some? && m.data.title.value != "" ==> p.title == m.data.title.value
    ensures m.data.tags.Some? ==> p.tags == m.data.tags.value
  {
    BlogPost(slug, Or(m.data.title, slug), Or(m.data.date, nowIso), Or(m.data.description, ""),
             Or(m.data.category, "Uncategorized"), m.data.tags.GetOr([]), Or(m.data.readTime, "5 min read"),
             m.content, m.data.keyTakeaways, m.data.originalSource, m.data.originalLink)
  }

  /** `getPostBySlug(slug)`: `None` for `null` (no file, or reading or
      parsing threw); `nowIso` is `new Date().toISOString()`. */
  function PostBySlug(blog: Dir, slug: string, parse: MatterParser, nowIso: string): (r: Option<BlogPost>)
    ensures r.Some? ==> r.value.slug == slug
    ensures PostFile(blog, slug).None? ==> r.None?
    ensures PostFile(blog, slug).Some? ==>
      r == match parse(blog[PostFile(blog, slug).value])
           case None => None
           case Some(m) => Some(PostOf(slug, m, nowIso))
  {
    match PostFile(blog, slug)
    case None => None
    case Some(file) =>
      match parse(blog[file])
      case None => None
      case Some(m) => Some(PostOf(slug, m, nowIso))
  }

  /** With both files present the `.md` one is never read: changing it
      changes nothing. */
  lemma MdxShadowsMd(blog: Dir, slug: string, other: string, parse: MatterParser, nowIso: string)
    requires slug + ".mdx" in blog && slug + ".md" in blog
    ensures PostBySlug(blog[slug + ".md" := other], slug, parse, nowIso) == PostBySlug(blog, slug, parse, nowIso)
  {
    assert slug + ".mdx" != slug + ".md" by {
      assert |slug + ".mdx"| != |slug + ".md"|;
    }
  }

  // ---------------------------------------------------------------------
  // Listing: `getAllSlugs` and `getAllPosts`

  /** `file.endsWith('.mdx') || file.endsWith('.md')`. */
  predicate IsPostFile(file: string) {
    EndsWith(file, ".mdx") || EndsWith(file, ".md")
  }

  /** `file.replace(/\.mdx?$/, '')`. */
  function SlugOfFile(file: string): string {
    if EndsWith(file, ".mdx") then file[..|file| - 4]
    else if EndsWith(file, ".md") then file[..|file| - 3]
    else file
  }

  /** The slug of `<slug>.mdx` and of `<slug>.md` is `slug`. */
  lemma SlugOfPostFile(slug: string)
    ensures IsPostFile(slug + ".mdx") && SlugOfFile(slug + ".mdx") == slug
    ensures IsPostFile(slug + ".md") && SlugOfFile(slug + ".md") == slug
  {
    var mdx, md := slug + ".mdx", slug + ".md";
    assert mdx[|mdx| - 4..] == ".mdx" && mdx[..|mdx| - 4] == slug;
    assert md[|md| - 3..] == ".md" && md[..|md| - 3] == slug;
    assert md[|md| - 1] == 'd';
  }

  /** A post file is present under the name its slug leads back to. */
  lemma {:induction false} PostFileOfSlug(blog: Dir, file: string)
    requires file in blog && IsPostFile(file)
    ensures PostFile(blog, SlugOfFile(file)).Some?
  {
    var slug := SlugOfFile(file);
    if EndsWith(file, ".mdx") {
      assert slug + ".mdx" == file;
    } else {
      assert slug + ".md" == file;
    }
  }

  /** The listed post files, in listing order. */
  function PostFiles(names: seq<string>): (r: seq<string>)
    ensures forall f :: f in r <==> f in names && IsPostFile(f)
  {
    if names == [] then []
    else
      PostFiles(names[..|names| - 1])
      + (if IsPostFile(names[|names| - 1]) then [names[|names| - 1]] else [])
  }

  function SlugsOf(files: seq<string>): (r: seq<string>)
    ensures |r| == |files|
    ensures forall i :: 0 <= i < |files| ==> r[i] == SlugOfFile(files[i])
  {
    if files == [] then [] else SlugsOf(files[..|files| - 1]) + [SlugOfFile(files[|files| - 1])]
  }

  /** `getAllSlugs()` over `content/blog/` (`None` when it is missing), listed
      by `listing`. */
  function AllSlugs(blog: Option<Dir>, listing: seq<string>): (slugs: seq<string>)
    ensures blog.None? ==> slugs == []
  {
    if blog.None? then [] else SlugsOf(PostFiles(listing))
  }

  /** Every slug names a post file that is there, and every post file gives
      its slug. */
  lemma AllSlugsResolve(blog: Dir, listing: seq<string>)
    requires IsListing(listing, blog)
    ensures forall s :: s in AllSlugs(Some(blog), listing) ==> PostFile(blog, s).Some?
    ensures forall f :: f in blog && IsPostFile(f) ==> SlugOfFile(f) in AllSlugs(Some(blog), listing)
  {
    var files := PostFiles(listing);
    var slugs := AllSlugs(Some(blog), listing);
    forall s | s in slugs
      ensures PostFile(blog, s).Some?
    {
      var i :| 0 <= i < |files| && slugs[i] == s;
      PostFileOfSlug(blog, files[i]);
    }
    forall f | f in blog && IsPostFile(f)
      ensures SlugOfFile(f) in slugs
    {
      var i :| 0 <= i < |files| && files[i] == f;
      assert slugs[i] == SlugOfFile(f);
    }
  }

  /** The post of one listed file reads and parses. */
  predicate Readable(blog: Dir, file: string, parse: MatterParser, nowIso: string) {
    PostBySlug(blog, SlugOfFile(file), parse, nowIso).Some?
  }

  /** What one listed file contributes to the `.map(...).filter(...)`. */
  function PostAt(blog: Dir, file: string, parse: MatterParser, nowIso: string): (r: seq<BlogPost>)
    ensures |r| == if Readable(blog, file, parse, nowIso) then 1 else 0
    ensures forall p :: p in r <==> PostBySlug(blog, SlugOfFile(file), parse, nowIso) == Some(p)
  {
    match PostBySlug(blog, SlugOfFile(file), parse, nowIso)
    case None => []
    case Some(p) => [p]
  }

  /** The posts of `files` that read and parse, in file order. */
  function PostsOf(blog: Dir, files: seq<string>, parse: MatterParser, nowIso: string): seq<BlogPost> {
    if files == [] then []
    else PostsOf(blog, files[..|files| - 1], parse, nowIso) + PostAt(blog, files[|files| - 1], parse, nowIso)
  }

  lemma {:induction false} PostsOfMembers(blog: Dir, files: seq<string>, parse: MatterParser, nowIso: string, p: BlogPost)
    ensures p in PostsOf(blog, files, parse, nowIso)
        <==> exists f :: f in files && PostBySlug(blog, SlugOfFile(f), parse, nowIso) == Some(p)
    decreases |files|
  {
    if files != [] {
      var init, last := files[..|files| - 1], files[|files| - 1];
      PostsOfMembers(blog, init, parse, nowIso, p);
      assert files == init + [last];
      if PostBySlug(blog, SlugOfFile(last), parse, nowIso) == Some(p) {
        assert last in files;
      }
    }
  }

  /** The sort key: `new Date(post.date).getTime()`, given as `timeOf`. */
  function ByDate(timeOf: string -> int): BlogPost -> int {
    (p: BlogPost) => timeOf(p.date)
  }

  /** `getAllPosts()` over `content/blog/` (`None` when it is missing). */
  function AllPosts(blog: Option<Dir>, listing: seq<string>, parse: MatterParser, nowIso: string,
                    timeOf: string -> int): (posts: seq<BlogPost>)
    ensures blog.None? ==> posts == []
  {
    if blog.None? then []
    else SortDesc(PostsOf(blog.value, PostFiles(listing), parse, nowIso), ByDate(timeOf))
  }

  /** The posts come newest first, and they are exactly the posts of the
      listed `.md`/`.mdx` files that read and parse, whatever their status. */
  lemma AllPostsListing(blog: Dir, listing: seq<string>, parse: MatterParser, nowIso: string,
                        timeOf: string -> int, p: BlogPost)
    requires IsListing(listing, blog)
    ensures SortedDesc(AllPosts(Some(blog), listing, parse, nowIso, timeOf), ByDate(timeOf))
    ensures p in AllPosts(Some(blog), listing, parse, nowIso, timeOf)
        <==> exists f :: f in blog && IsPostFile(f) && PostBySlug(blog, SlugOfFile(f), parse, nowIso) == Some(p)
  {
    var files := PostFiles(listing);
    var posts := PostsOf(blog, files, parse, nowIso);
    SortDescSorted(posts, ByDate(timeOf));
    SortDescPermutes(posts, ByDate(timeOf));
    PostsOfMembers(blog, files, parse, nowIso, p);
  }

  /** Only files that fail to read or parse are dropped. */
  lemma {:induction false} PostsOfLength(blog: Dir, files: seq<string>, parse: MatterParser, nowIso: string)
    ensures |PostsOf(blog, files, parse, nowIso)| <= |files|
    ensures (forall i :: 0 <= i < |files| ==> Readable(blog, files[i], parse, nowIso))
            ==> |PostsOf(blog, files, parse, nowIso)| == |files|
    decreases |files|
  {
    if files != [] {
      var init := files[..|files| - 1];
      PostsOfLength(blog, init, parse, nowIso);
      assert forall i :: 0 <= i < |init| ==> init[i] == files[i];
    }
  }

  /** With `<slug>.mdx` and `<slug>.md` both present, both listed files lead
      to the same post, read from the `.mdx` file, so a successful read
      lists that post twice. */
  lemma TwinFilesSamePost(blog: Dir, slug: string, parse: MatterParser, nowIso: string)
    requires slug + ".mdx" in blog && slug + ".md" in blog
    ensures PostBySlug(blog, SlugOfFile(slug + ".md"), parse, nowIso)
         == PostBySlug(blog, SlugOfFile(slug + ".mdx"), parse, nowIso)
    ensures PostBySlug(blog, SlugOfFile(slug + ".md"), parse, nowIso)
         == match parse(blog[slug + ".mdx"]) case None => None case Some(m) => Some(PostOf(slug, m, nowIso))
  {
    SlugOfPostFile(slug);
  }
}
