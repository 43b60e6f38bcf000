/** The reply handling of the recipe-suggestion function
    (supabase/functions/suggest-recipes/index.ts): the markdown fence around
    the model's JSON is stripped, the JSON is parsed, and its `recipes`
    member is returned when it has one. */
module SuggestRecipes {
  import opened Wrappers
  import opened Strings

  /** A JSON value. */
  datatype Json =
    | JNull
    | JBool(b: bool)
    | JNumber(n: real)
    | JString(s: string)
    | JArray(items: seq<Json>)
    | JObject(members: map<string, Json>)

  datatype SuggestError = NoContent | InvalidJson

  /** JavaScript truthiness of a parsed value. */
  predicate Truthy(j: Json) {
    match j
    case JNull => false
    case JBool(b) => b
    case JNumber(n) => n != 0.0
    case JString(s) => s != ""
    case JArray(_) => true
    case JObject(_) => true
  }

  /** `.replace(/\s*```$/, '')`: a closing fence at the very end goes, with
      the whitespace before it. */
  function DropClosingFence(s: string): (r: string)
    ensures |r| <= |s|
  {
    if EndsWith(s, "```") then TrimEnd(s[..|s| - 3]) else s
  }

  /** `cleanContent`: the reply trimmed; a leading fence tagged `json`, or
      else a bare one, removed with the whitespace after it; then a closing
      fence removed. */
  function CleanContent(content: string): string {
    var t := Trim(content);
    if StartsWith(t, "```json") then DropClosingFence(TrimStart(t[7..]))
    else if StartsWith(t, "```") then DropClosingFence(TrimStart(t[3..]))
    else t
  }

  /** A reply that does not open with a fence is only trimmed. */
  lemma UnfencedIsTrimmedOnly(content: string)
    requires !StartsWith(Trim(content), "```")
    ensures CleanContent(content) == Trim(content)
    ensures IsTrimmed(CleanContent(content))
  {
    TrimIsTrimmed(content);
  }

  /** What remains after the opening fence and the whitespace after it is
      trimmed once its closing fence is dropped. */
  lemma DropClosingFenceTrimmed(s: string)
    requires IsTrimmed(s)
    ensures IsTrimmed(DropClosingFence(s))
  {
    if EndsWith(s, "```") {
      var p := s[..|s| - 3];
      TrimEndDropsSpaces(p);
      var r := TrimEnd(p);
      if r != [] {
        assert r[0] == p[0] == s[0];
      }
    }
  }

  /** Whatever the reply, the text handed to the JSON parser has no
      leading or trailing whitespace. */
  lemma CleanContentTrimmed(content: string)
    ensures IsTrimmed(CleanContent(content))
  {
    var t := Trim(content);
    TrimIsTrimmed(content);
    if StartsWith(t, "```json") || StartsWith(t, "```") {
      var k := if StartsWith(t, "```json") then 7 else 3;
      var rest := t[k..];
      TrimStartDropsSpaces(rest);
      var s := TrimStart(rest);
      if s != [] {
        assert s[|s| - 1] == t[|t| - 1];
      }
      DropClosingFenceTrimmed(s);
    }
  }

  /** A body wrapped in a fence tagged `json`, or in a bare fence, comes out
      as it went in; the tag is not left at its head. */
  lemma FencedRoundTrip(body: string)
    requires body != "" && IsTrimmed(body)
    ensures CleanContent("```json\n" + body + "\n```") == body
    ensures CleanContent("```\n" + body + "\n```") == body
  {
    FencedJson(body);
    FencedBare(body);
  }

  /** A body followed by a closing fence on its own line loses the fence. */
  lemma ClosingFenceDropped(body: string)
    requires body != "" && IsTrimmed(body)
    ensures DropClosingFence(body + "\n```") == body
  {
    var s := body + "\n```";
    assert s[|s| - 3..] == "```";
    assert s[..|s| - 3] == body + "\n";
    TrimEndBeforeSpaces(body, "\n");
  }

  /** A reply fenced with `json`: the trimmed reply starts with the tagged
      fence, and what follows the tag is a line break and the body. */
  lemma FencedJson(body: string)
    requires body != "" && IsTrimmed(body)
    ensures CleanContent("```json\n" + body + "\n```") == body
  {
    var rest := body + "\n```";
    var c := "```json\n" + rest;
    assert "```json\n" + body + "\n```" == c;
    assert c[0] == '`' && c[|c| - 1] == '`';
    TrimOfTrimmed(c);
    assert c[..7] == "```json";
    assert c[7..] == "\n" + rest;
    TrimStartAfterSpaces("\n", rest);
    ClosingFenceDropped(body);
  }

  /** A reply with a bare fence: the trimmed reply starts with a fence that
      is not tagged `json`, and what follows it is a line break and the body. */
  lemma FencedBare(body: string)
    requires body != "" && IsTrimmed(body)
    ensures CleanContent("```\n" + body + "\n```") == body
  {
    var rest := body + "\n```";
    var c := "```\n" + rest;
    assert "```\n" + body + "\n```" == c;
    assert c[0] == '`' && c[|c| - 1] == '`';
    TrimOfTrimmed(c);
    assert c[..3] == "```";
    assert c[3] == '\n';
    assert !StartsWith(c, "```json");
    assert c[3..] == "\n" + rest;
    TrimStartAfterSpaces("\n", rest);
    ClosingFenceDropped(body);
  }

  /** The member a parsed value has under a key, if it is an object with one. */
  function Member(j: Json, key: string): Option<Json> {
    match j
    case JObject(members) => if key in members then Some(members[key]) else None
    case _ => None
  }

  /** The recipes of a reply: no content is an error; unparseable content,
      or content that parses to `null` (whose `recipes` cannot be read), is
      invalid JSON; otherwise `parsed.recipes || parsed`. */
  function ExtractRecipes(content: Option<string>, parse: string -> Option<Json>): (r: Result<Json, SuggestError>)
    ensures r == Err(NoContent) <==> content == None || content == Some("")
    ensures r.Ok? ==> r.value != JNull
  {
    match content
    case None => Err(NoContent)
    case Some(c) =>
      if c == "" then Err(NoContent)
      else match parse(CleanContent(c))
        case None => Err(InvalidJson)
        case Some(parsed) =>
          if parsed == JNull then Err(InvalidJson)
          else match Member(parsed, "recipes")
            case Some(recipes) => if Truthy(recipes) then Ok(recipes) else Ok(parsed)
            case None => Ok(parsed)
  }

  /** The reply the prompt asks for, an object whose `recipes` member is a
      list, fenced with `json`: the list is the result, even when empty. */
  lemma FencedRecipes(body: string, parse: string -> Option<Json>, xs: seq<Json>)
    requires body != "" && IsTrimmed(body)
    requires parse(body) == Some(JObject(map["recipes" := JArray(xs)]))
    ensures ExtractRecipes(Some("```json\n" + body + "\n```"), parse) == Ok(JArray(xs))
  {
    FencedJson(body);
  }

  /** A bare list in a bare fence has no `recipes` member: the list itself
      is the result. */
  lemma BareFencedList(body: string, parse: string -> Option<Json>, xs: seq<Json>)
    requires body != "" && IsTrimmed(body)
    requires parse(body) == Some(JArray(xs))
    ensures ExtractRecipes(Some("```\n" + body + "\n```"), parse) == Ok(JArray(xs))
  {
    FencedBare(body);
  }

  /** An object whose `recipes` member is missing or falsy (`null`, `false`,
      `0`, `""`) is the result itself. */
  lemma RecipesFallback(body: string, parse: string -> Option<Json>, members: map<string, Json>)
    requires body != "" && IsTrimmed(body) && !StartsWith(body, "```")
    requires "recipes" in members ==> members["recipes"] in {JNull, JBool(false), JNumber(0.0), JString("")}
    requires parse(body) == Some(JObject(members))
    ensures ExtractRecipes(Some(body), parse) == Ok(JObject(members))
  {
    TrimOfTrimmed(body);
    UnfencedIsTrimmedOnly(body);
  }
}
