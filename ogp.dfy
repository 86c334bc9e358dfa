/**
 * Open Graph meta tags for a timeline post (utils/ogp.ts): a title line, a description
 * line, and an image line only when the post's first image is a non-empty string,
 * joined by single newlines.
 */
module Ogp {
  import opened Wrappers
  import opened Text

  /** A timeline post. */
  datatype Post = Post(id: int, text: string, images: seq<string>)

  function TitleLine(id: int): string
  {
    "<meta property=\"og:title\" " + "content=\"Agrow Post #" + IntToDecimal(id) + "\" />"
  }

  function DescriptionLine(text: string): string
  {
    "<meta property=\"og:description\" content=\"" + text + "\" />"
  }

  function ImageLine(image: string): string
  {
    "<meta property=\"og:image\" content=\"" + image + "\" />"
  }

  /** `post.images[0] || ''`, kept only when non-empty: a missing and an empty first image both count as none. */
  function FirstImage(post: Post): Option<string>
  {
    if |post.images| > 0 && post.images[0] != "" then Some(post.images[0]) else None
  }

  /** The lines `generateOGPMeta` builds before joining them. */
  function MetaLines(post: Post): seq<string>
  {
    [TitleLine(post.id), DescriptionLine(post.text)]
      + (if FirstImage(post).Some? then [ImageLine(FirstImage(post).value)] else [])
  }

  /** `generateOGPMeta(post)`. */
  function GenerateOGPMeta(post: Post): (r: string)
    ensures TitleLine(post.id) <= r
  {
    Join(MetaLines(post), "\n")
  }

  lemma TitleHasNoNewline(id: int)
    ensures '\n' !in TitleLine(id)
  {
    var digits := NatToDecimal(if id < 0 then -id else id);
    assert IntToDecimal(id) == if id < 0 then "-" + digits else digits;
    assert '\n' !in "<meta property=\"og:title\" ";
    assert '\n' !in "content=\"Agrow Post #";
    assert '\n' !in "\" />";
  }

  /**
   * The output is the title line, a newline, the description line with `post.text` verbatim,
   * and — exactly when the first image is non-empty — a newline and the image line carrying
   * that image; there is no trailing newline.
   */
  lemma MetaLayout(post: Post)
    ensures FirstImage(post).None? ==>
      GenerateOGPMeta(post) == TitleLine(post.id) + "\n" + DescriptionLine(post.text)
    ensures FirstImage(post).Some? ==>
      GenerateOGPMeta(post) == TitleLine(post.id) + "\n" + DescriptionLine(post.text) + "\n" + ImageLine(post.images[0])
  {
    var lines := MetaLines(post);
    var title, description := TitleLine(post.id), DescriptionLine(post.text);
    if FirstImage(post).None? {
      assert lines == [title, description];
      assert Join(lines[1..], "\n") == description;
    } else {
      var image := ImageLine(post.images[0]);
      assert lines == [title, description, image];
      assert lines[1..] == [description, image];
      assert lines[1..][1..] == [image];
      assert Join(lines[1..], "\n") == description + "\n" + image;
    }
  }

  /**
   * When neither the text nor the first image contains a newline, splitting the output at
   * newlines gives back exactly the lines: two without an image, three with one.
   */
  lemma MetaLineCount(post: Post)
    requires '\n' !in post.text
    requires |post.images| > 0 ==> '\n' !in post.images[0]
    ensures Split(GenerateOGPMeta(post), '\n') == MetaLines(post)
    ensures |Split(GenerateOGPMeta(post), '\n')| == if FirstImage(post).Some? then 3 else 2
    ensures Split(GenerateOGPMeta(post), '\n')[0] == TitleLine(post.id)
    ensures Split(GenerateOGPMeta(post), '\n')[1] == DescriptionLine(post.text)
  {
    TitleHasNoNewline(post.id);
    var lines := MetaLines(post);
    forall p | p in lines ensures '\n' !in p {
    }
    SplitJoin(lines, '\n');
  }

  /** Images after the first never affect the output. */
  lemma LaterImagesIgnored(post: Post, rest: seq<string>)
    requires |post.images| > 0
    ensures GenerateOGPMeta(post) == GenerateOGPMeta(post.(images := [post.images[0]] + rest))
  {
  }

  lemma PostOneLines()
    ensures TitleLine(1) == "<meta property=\"og:title\" content=\"Agrow Post #1\" />"
    ensures DescriptionLine("Hello") == "<meta property=\"og:description\" content=\"Hello\" />"
    ensures ImageLine("img.jpg") == "<meta property=\"og:image\" content=\"img.jpg\" />"
  {
    assert IntToDecimal(1) == "1";
  }

  lemma PostTwoLines()
    ensures TitleLine(2) == "<meta property=\"og:title\" content=\"Agrow Post #2\" />"
    ensures DescriptionLine("No image") == "<meta property=\"og:description\" content=\"No image\" />"
  {
    assert IntToDecimal(2) == "2";
  }

  /** The test "includes image tag when image exists", as the exact output. */
  lemma WithImageExample()
    ensures GenerateOGPMeta(Post(1, "Hello", ["img.jpg"])) ==
      "<meta property=\"og:title\" content=\"Agrow Post #1\" />" + "\n"
      + "<meta property=\"og:description\" content=\"Hello\" />" + "\n"
      + "<meta property=\"og:image\" content=\"img.jpg\" />"
  {
    var post := Post(1, "Hello", ["img.jpg"]);
    MetaLayout(post);
    assert FirstImage(post).Some? && post.images[0] == "img.jpg";
    PostOneLines();
  }

  /** The test "omits image tag when no image", as the exact output. */
  lemma WithoutImageExample()
    ensures GenerateOGPMeta(Post(2, "No image", [])) ==
      "<meta property=\"og:title\" content=\"Agrow Post #2\" />" + "\n"
      + "<meta property=\"og:description\" content=\"No image\" />"
  {
    var post := Post(2, "No image", []);
    MetaLayout(post);
    assert FirstImage(post).None?;
    PostTwoLines();
  }
}
