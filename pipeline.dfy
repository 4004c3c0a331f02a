/** What the generator scripts share: the text-generation backend, the
    output directories with the ledger file, and the names of the files
    they write. */
module Pipeline {
  import opened JsString
  import opened Files
  import Ledger

  /** Why `generateWithGrok` throws (`utils/grok.ts`): no API key, an HTTP
      status that is not OK, or a reply without choices. */
  datatype GenError = MissingApiKey | HttpStatus(code: int) | NoChoices

  datatype Reply = Text(text: string) | Failure(error: GenError)

  /** The backend: the reply to the `n`-th generation request of a run,
      given its prompt. Numbering the requests lets the same prompt get a
      different reply, or fail, at another time. */
  type Generator = (nat, string) -> Reply

  /** What a run changes: `content/blog/`, `content/social/` and the
      ledger file. */
  datatype Disk = Disk(blog: Dir, social: Dir, ledger: Ledger.CacheFile)

  /** `slugify(text, { lower: true, strict: true }).slice(0, n)`, with
      `slugify` itself left abstract. */
  function SlugCut(slugify: string -> string, text: string, n: nat): (s: string)
    ensures |s| <= n && s <= slugify(text)
  {
    Take(slugify(text), n)
  }

  /** The blog slug of an article: `curated-` and its title, at most 60 characters. */
  function BlogSlug(slugify: string -> string, title: string): string {
    SlugCut(slugify, "curated-" + title, 60)
  }

  /** The slug of an article's social posts: its title, at most 40 characters. */
  function SocialSlug(slugify: string -> string, title: string): string {
    SlugCut(slugify, title, 40)
  }

  function PostFile(slug: string): string { slug + ".mdx" }
  function LinkedinFile(slug: string): string { "linkedin-" + slug + ".txt" }
  function TwitterFile(slug: string): string { "twitter-" + slug + ".txt" }

  /** A LinkedIn file and a tweet file never share a name, so writing one
      never overwrites the other. */
  lemma SocialFilesDistinct(a: string, b: string)
    ensures LinkedinFile(a) != TwitterFile(b)
  {
    assert LinkedinFile(a)[0] == 'l' && TwitterFile(b)[0] == 't';
  }

  /** The output directories and the ledger, changed in place by a run. */
  class Workspace {
    var blog: Dir
    var social: Dir
    const cache: Ledger.ContentCache

    constructor(blog0: Dir, social0: Dir, cache: Ledger.ContentCache)
      ensures blog == blog0 && social == social0 && this.cache == cache
    {
      blog := blog0;
      social := social0;
      this.cache := cache;
    }

    function State(): Disk
      reads this, cache
    {
      Disk(blog, social, cache.file)
    }

    /** `fs.writeFileSync(path.join(contentDir, name), text)`. */
    method WriteBlog(name: string, text: string)
      modifies this
      ensures blog == old(blog)[name := text] && social == old(social)
    {
      blog := blog[name := text];
    }

    /** `fs.writeFileSync(path.join(socialDir, name), text)`. */
    method WriteSocial(name: string, text: string)
      modifies this
      ensures social == old(social)[name := text] && blog == old(blog)
    {
      social := social[name := text];
    }
  }
}
