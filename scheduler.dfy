/** `scheduler.py`: the weekly "Smell of the Week" post. Only the message
    it posts is modelled: `build_smell_message` renders one smell record as
    markdown, with an emoji and a hashtag for its tag unless the tag is
    `"general"`. */
module Scheduler {
  import opened Wrappers
  import opened Text

  /** One entry of the smells file; `tag` is optional. */
  datatype Smell = Smell(
    title: string,
    lang: string,
    tag: Option<string>,
    bad: string,
    good: string,
    explanation: string,
    commitMessage: string)

  /** `TAG_EMOJI`: the emoji name shown for each known tag. */
  const TagEmoji: map<string, string> := map[
    "security" := "lock",
    "performance" := "rocket",
    "readability" := "bulb",
    "maintainability" := "wrench",
    "correctness" := "magnifying_glass_tilted_left",
    "style" := "paintbrush",
    "portability" := "earth_africa",
    "reliability" := "shield",
    "modern-js" := "recycle",
    "general" := "question"]

  /** `smell.get("tag", "general")`. */
  function TagOf(smell: Smell): string {
    smell.tag.GetOr("general")
  }

  /** `TAG_EMOJI.get(tag, "question")`. */
  function EmojiFor(tag: string): string {
    if tag in TagEmoji then TagEmoji[tag] else "question"
  }

  /** The emoji and hashtag, or nothing for the `"general"` tag. */
  function TagDisplay(tag: string): string {
    if tag != "general" then EmojiFor(tag) + " **#" + tag + "**" else ""
  }

  const Heading: string := "**Smell of the Week**"

  /** A fenced code block in the smell's language, the code right-stripped. */
  function CodeBlock(lang: string, code: string): string {
    "```" + lang + "\n" + RStrip(code) + "\n```"
  }

  /** The closing section: the commit message in back-quotes. */
  function CommitSection(commit: string): string {
    "**Commit Message**  \n" + ("`" + commit + "`")
  }

  /** The title line after the heading: title, language and tag display. */
  function TitleRest(smell: Smell): string {
    "  \n**" + smell.title + "** (`" + smell.lang + "`) " + TagDisplay(TagOf(smell))
  }

  /** The five paragraphs of the template, which separates them by blank
      lines: title line, bad code, good code, explanation, commit message. */
  function SmellSections(smell: Smell): seq<string> {
    [ Heading + TitleRest(smell),
      "**Bad**\n" + CodeBlock(smell.lang, smell.bad),
      "**Good**\n" + CodeBlock(smell.lang, smell.good),
      "> " + smell.explanation,
      CommitSection(smell.commitMessage) ]
  }

  /** The message between the template's opening and closing newlines. */
  function SmellBody(smell: Smell): string {
    Join(SmellSections(smell), "\n\n")
  }

  /** `build_smell_message(smell)`: the template, stripped. */
  function SmellMessage(smell: Smell): string {
    Strip("\n" + SmellBody(smell) + "\n")
  }

  // ---------------------------------------------------------------------
  // Properties
  // ---------------------------------------------------------------------

  /** A missing tag counts as `"general"`; an unknown tag gets the
      `"question"` emoji, and so does `"general"` itself. */
  lemma TagDefaults(smell: Smell, tag: string)
    ensures smell.tag.None? ==> TagOf(smell) == "general" && TagDisplay(TagOf(smell)) == ""
    ensures tag !in TagEmoji ==> EmojiFor(tag) == "question"
    ensures EmojiFor("general") == "question"
  {
  }

  /** The tag display is empty exactly for the `"general"` tag; otherwise
      it is the emoji, then the tag as a bold hashtag. */
  lemma TagDisplayEmptyIffGeneral(tag: string)
    ensures TagDisplay(tag) == "" <==> tag == "general"
    ensures tag != "general" ==> TagDisplay(tag) == EmojiFor(tag) + " **#" + tag + "**"
  {
    if tag != "general" {
      assert |TagDisplay(tag)| >= |" **#"|;
    }
  }

  /** Stripping removes only the template's framing newlines: the message
      is the sections joined by blank lines, opening with the heading and
      ending with the back-quoted commit message. */
  lemma SmellMessageFramed(smell: Smell)
    ensures SmellMessage(smell) == SmellBody(smell)
    ensures StartsWith(SmellMessage(smell), Heading)
    ensures EndsWith(SmellMessage(smell), "`" + smell.commitMessage + "`")
  {
    var sections := SmellSections(smell);
    var body := SmellBody(smell);
    var tail := "`" + smell.commitMessage + "`";
    JoinStarts(sections, "\n\n");
    JoinEnds(sections, "\n\n");
    assert sections[0][..|Heading|] == Heading;
    assert StartsWith(body, Heading);
    assert body[0] == Heading[0];
    assert sections[4][|sections[4]| - |tail|..] == tail;
    assert EndsWith(body, tail);
    assert body[|body| - 1] == tail[|tail| - 1];
    StripFramed("\n", body, "\n");
  }

  /** Every section of the template appears in the message. */
  lemma SmellMessageHasSection(smell: Smell, k: nat)
    requires k < |SmellSections(smell)|
    ensures Contains(SmellMessage(smell), SmellSections(smell)[k])
  {
    SmellMessageFramed(smell);
    JoinHasPart(SmellSections(smell), "\n\n", k);
  }

  /** Both code samples appear right-stripped in fences tagged with the
      smell's language, each under its label, and so does the
      explanation. */
  lemma SmellMessageShowsCode(smell: Smell)
    ensures Contains(SmellMessage(smell), "**Bad**\n" + CodeBlock(smell.lang, smell.bad))
    ensures Contains(SmellMessage(smell), "**Good**\n" + CodeBlock(smell.lang, smell.good))
    ensures Contains(SmellMessage(smell), "> " + smell.explanation)
  {
    SmellMessageHasSection(smell, 1);
    SmellMessageHasSection(smell, 2);
    SmellMessageHasSection(smell, 3);
  }

  /** A tag other than `"general"` is shown, with its emoji, as a hashtag
      in the title line. */
  lemma SmellMessageShowsTag(smell: Smell)
    requires TagOf(smell) != "general"
    ensures Contains(SmellMessage(smell), EmojiFor(TagOf(smell)) + " **#" + TagOf(smell) + "**")
  {
    var title := SmellSections(smell)[0];
    var display := TagDisplay(TagOf(smell));
    var before := Heading + ("  \n**" + smell.title + "** (`" + smell.lang + "`) ");
    assert title == before + display;
    ContainsSelf(display);
    ContainsInContext(before, display, "", display);
    assert before + display + "" == title;
    SmellMessageHasSection(smell, 0);
    ContainsTrans(SmellMessage(smell), title, display);
  }
}
