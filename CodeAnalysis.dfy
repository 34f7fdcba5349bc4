/**
 * `CodeAnalysisService`: the five prompt templates, the request they are
 * sent with, the language guessed from a file name, the selected text, and
 * the two document edits that bring a suggestion back into the editor.
 */
module CodeAnalysis {
  import opened Options
  import opened Http
  import Client
  import Settings

  /** The model every analysis asks. */
  const DEFAULT_MODEL := "llama2"

  /** The five kinds of analysis, one prompt template each. */
  datatype Task = Refactor | Explain | Tests | TypeHints | Optimize

  /** The template text before the first `%s` (the language). */
  function Opening(task: Task): string {
    match task
    case Refactor => "Analyze this "
    case Explain => "Explain this "
    case Tests => "Generate comprehensive unit tests for this "
    case TypeHints => "Add type hints and annotations to this "
    case Optimize => "Optimize this "
  }

  /** The template text between the language and the code fence. */
  function Lead(task: Task): string {
    match task
    case Refactor => " code and suggest improvements for readability, performance, and best practices:\n\n"
    case Explain => " code in simple terms:\n\n"
    case Tests => " code:\n\n"
    case TypeHints => " code:\n\n"
    case Optimize => " code for better performance:\n\n"
  }

  /** The template text after the closing fence. */
  function Closing(task: Task): string {
    match task
    case Refactor => "\n\nProvide a refactored version with explanation."
    case Explain => ""
    case Tests => "\n\nProvide tests using common testing frameworks."
    case TypeHints => "\n\nProvide the annotated version."
    case Optimize => "\n\nProvide the optimized version with explanation of changes."
  }

  /** Everything before the code: the request, then a fence tagged with the language. */
  function Head(task: Task, language: string): string {
    Opening(task) + language + Lead(task) + "```" + language + "\n"
  }

  /** Everything after the code: the closing fence and the template's last sentence. */
  function Tail(task: Task): string {
    "\n```" + Closing(task)
  }

  /** The prompt of each template: the code sits fenced between fixed text. */
  function Prompt(task: Task, language: string, code: string): (p: string)
    ensures |p| == |Head(task, language)| + |code| + |Tail(task)|
    ensures p[..|Head(task, language)|] == Head(task, language)
    ensures p[|Head(task, language)|..|p| - |Tail(task)|] == code
    ensures p[|p| - |Tail(task)|..] == Tail(task)
  {
    Head(task, language) + code + Tail(task)
  }

  /** Reads the code back out of a prompt of the given template, if it has that shape. */
  function CodeOf(task: Task, language: string, p: string): Option<string> {
    var head, tail := Head(task, language), Tail(task);
    if |head| + |tail| <= |p| && p[..|head|] == head && p[|p| - |tail|..] == tail
    then Some(p[|head|..|p| - |tail|])
    else None
  }

  /** The code sent can be read back from the prompt. */
  lemma CodeRoundTrip(task: Task, language: string, code: string)
    ensures CodeOf(task, language, Prompt(task, language, code)) == Some(code)
  {
  }

  /** Any text with a template's shape is that template's prompt for the code it holds. */
  lemma PromptOfCode(task: Task, language: string, p: string)
    requires CodeOf(task, language, p).Some?
    ensures Prompt(task, language, CodeOf(task, language, p).value) == p
  {
    Reassemble(p, Head(task, language), Tail(task));
  }

  /** A text that starts with `head` and ends with `tail` is the two around its middle. */
  lemma Reassemble(p: string, head: string, tail: string)
    requires |head| + |tail| <= |p| && p[..|head|] == head && p[|p| - |tail|..] == tail
    ensures p == head + p[|head|..|p| - |tail|] + tail
  {
    assert p == p[..|head|] + p[|head|..|p| - |tail|] + p[|p| - |tail|..];
  }

  /** The prompt is the only text of the template's shape that holds the code. */
  lemma PromptOfCodeUnique(task: Task, language: string, code: string)
    ensures forall p :: CodeOf(task, language, p) == Some(code) ==> p == Prompt(task, language, code)
  {
    forall p | CodeOf(task, language, p) == Some(code)
      ensures p == Prompt(task, language, code)
    {
      PromptOfCode(task, language, p);
    }
  }

  /** Different code gives different prompts. */
  lemma PromptInjective(task: Task, language: string, code1: string, code2: string)
    requires Prompt(task, language, code1) == Prompt(task, language, code2)
    ensures code1 == code2
  {
    CodeRoundTrip(task, language, code1);
    CodeRoundTrip(task, language, code2);
  }

  /** What the caller's callback hears, if it was given one. */
  datatype Suggestion = Suggested(text: string) | Refused(error: Option<string>)

  /**
   * `performAnalysis`: the prompt goes to the "llama2" model at the
   * configured base URL; a success hands on only the response text, an error
   * its message, and nothing reaches an absent callback.
   */
  function PerformAnalysis(prompt: string, settings: Settings.SettingsService, send: Transport,
                           hasCallback: bool): (s: Option<Suggestion>)
    reads settings
    ensures s.Some? <==> hasCallback
    ensures var g := Client.SendPrompt(Settings.BaseUrl(settings.host, settings.port), DEFAULT_MODEL, prompt, send, true);
            s.Some? ==> (g.notice.Some? &&
                         (s.value.Suggested? <==> g.notice.value.Delivered?) &&
                         (s.value.Suggested? ==> s.value.text == g.response.text) &&
                         (s.value.Refused? ==> g.notice.value == Client.Failed(s.value.error)))
  {
    var g := Client.SendPrompt(settings.GetBaseUrl(), DEFAULT_MODEL, prompt, send, true);
    if !hasCallback then None
    else
      match g.notice.value
      case Delivered(response) => Some(Suggested(response.text))
      case Failed(message) => Some(Refused(message))
  }

  /**
   * `suggestRefactoring`, `explainCode`, `generateTests`, `addTypeHints`,
   * `optimizeCode`: the text analysed is the one of the template's shape
   * from which the selected code reads back.
   */
  function Analyze(task: Task, code: string, language: string, settings: Settings.SettingsService,
                   send: Transport, hasCallback: bool): (s: Option<Suggestion>)
    reads settings
    ensures s.Some? <==> hasCallback
    ensures forall p :: CodeOf(task, language, p) == Some(code) ==> s == PerformAnalysis(p, settings, send, hasCallback)
  {
    PromptOfCodeUnique(task, language, code);
    PerformAnalysis(Prompt(task, language, code), settings, send, hasCallback)
  }

  /** `String.endsWith`. */
  predicate EndsWith(s: string, suffix: string) {
    |suffix| <= |s| && s[|s| - |suffix|..] == suffix
  }

  /** The file suffixes tried, in order, with the language each names. */
  const SUFFIXES: seq<(string, string)> := [
    (".java", "java"), (".php", "php"), (".py", "python"), (".js", "javascript"),
    (".ts", "typescript"), (".go", "go"), (".rs", "rust"), (".cpp", "cpp"), (".cc", "cpp")]

  const UNKNOWN := "unknown"

  /** The table's entries, one by one. */
  lemma SuffixTable()
    ensures |SUFFIXES| == 9
    ensures SUFFIXES[0] == (".java", "java") && SUFFIXES[1] == (".php", "php")
    ensures SUFFIXES[2] == (".py", "python") && SUFFIXES[3] == (".js", "javascript")
    ensures SUFFIXES[4] == (".ts", "typescript") && SUFFIXES[5] == (".go", "go")
    ensures SUFFIXES[6] == (".rs", "rust") && SUFFIXES[7] == (".cpp", "cpp")
    ensures SUFFIXES[8] == (".cc", "cpp")
  {
  }

  /** The name of the edited file; an editor without a file has the empty name. */
  function FileName(file: Option<string>): string {
    if file.None? then "" else file.value
  }

  /** `detectLanguage`: the language of the first suffix the name ends with. */
  function DetectLanguage(file: Option<string>): (language: string)
    ensures language == UNKNOWN <==> forall i :: 0 <= i < |SUFFIXES| ==> !EndsWith(FileName(file), SUFFIXES[i].0)
    ensures language != UNKNOWN ==> exists i :: 0 <= i < |SUFFIXES| && SUFFIXES[i].1 == language
  {
    var name := FileName(file);
    SuffixTable();
    if EndsWith(name, ".java") then "java"
    else if EndsWith(name, ".php") then "php"
    else if EndsWith(name, ".py") then "python"
    else if EndsWith(name, ".js") then "javascript"
    else if EndsWith(name, ".ts") then "typescript"
    else if EndsWith(name, ".go") then "go"
    else if EndsWith(name, ".rs") then "rust"
    else if EndsWith(name, ".cpp") || EndsWith(name, ".cc") then "cpp"
    else UNKNOWN
  }

  /** Of two suffixes of one string, the shorter is a suffix of the longer. */
  lemma SuffixOfSuffix(s: string, short: string, long: string)
    requires EndsWith(s, short) && EndsWith(s, long) && |short| <= |long|
    ensures EndsWith(long, short)
  {
    assert long[|long| - |short|..] == s[|s| - |short|..];
  }

  /** No suffix in the table ends with another, so a name ends with at most one. */
  lemma SuffixesExclusive(name: string, i: nat, j: nat)
    requires i < |SUFFIXES| && j < |SUFFIXES| && i != j
    requires EndsWith(name, SUFFIXES[i].0)
    ensures !EndsWith(name, SUFFIXES[j].0)
  {
    var a, b := SUFFIXES[i].0, SUFFIXES[j].0;
    if EndsWith(name, b) {
      if |a| <= |b| {
        SuffixOfSuffix(name, a, b);
      } else {
        SuffixOfSuffix(name, b, a);
      }
      assert false;
    }
  }

  /** A name with a suffix from the table is detected as that suffix's language. */
  lemma DetectBySuffix(name: string, i: nat)
    requires i < |SUFFIXES| && EndsWith(name, SUFFIXES[i].0)
    ensures DetectLanguage(Some(name)) == SUFFIXES[i].1
  {
    SuffixTable();
    forall j | 0 <= j < |SUFFIXES| && j != i
      ensures !EndsWith(name, SUFFIXES[j].0)
    {
      SuffixesExclusive(name, i, j);
    }
  }

  /** `getSelectedCode`: the selection, or nothing when it is missing or empty. */
  function GetSelectedCode(selection: Option<string>): (code: Option<string>)
    ensures code.None? <==> selection.None? || selection.value == ""
    ensures code.Some? ==> code == selection
  {
    if selection.Some? && selection.value != "" then selection else None
  }

  /** The editor's text, edited in place. */
  class Document {
    var text: string

    constructor (text: string)
      ensures this.text == text
    {
      this.text := text;
    }
  }

  /** The text with `code` inserted at `offset`. */
  function Inserted(text: string, offset: nat, code: string): (r: string)
    requires offset <= |text|
    ensures |r| == |text| + |code|
    ensures r[..offset] == text[..offset] && r[offset..offset + |code|] == code
    ensures r[offset + |code|..] == text[offset..]
  {
    text[..offset] + code + text[offset..]
  }

  /** The text with the characters from `start` up to `end` replaced by `code`. */
  function Replaced(text: string, start: nat, end: nat, code: string): (r: string)
    requires start <= end <= |text|
    ensures |r| == |text| - (end - start) + |code|
    ensures r[..start] == text[..start] && r[start..start + |code|] == code
    ensures r[start + |code|..] == text[end..]
  {
    text[..start] + code + text[end..]
  }

  /** Replacing an empty range is inserting. */
  lemma EmptyReplaceInserts(text: string, offset: nat, code: string)
    requires offset <= |text|
    ensures Replaced(text, offset, offset, code) == Inserted(text, offset, code)
  {
  }

  /** Removing what was inserted restores the text. */
  lemma RemoveInserted(text: string, offset: nat, code: string)
    requires offset <= |text|
    ensures Replaced(Inserted(text, offset, code), offset, offset + |code|, "") == text
  {
    var r := Replaced(Inserted(text, offset, code), offset, offset + |code|, "");
    assert r == text[..offset] + text[offset..];
    assert text == text[..offset] + text[offset..];
  }

  /** Replacing a range by its own text changes nothing. */
  lemma ReplaceBySelf(text: string, start: nat, end: nat)
    requires start <= end <= |text|
    ensures Replaced(text, start, end, text[start..end]) == text
  {
    assert text == text[..start] + text[start..end] + text[end..];
  }

  /** `insertCodeAtCursor`: the code goes in at the caret. */
  method InsertCodeAtCursor(document: Document, caret: nat, code: string)
    requires caret <= |document.text|
    modifies document
    ensures document.text == Inserted(old(document.text), caret, code)
  {
    document.text := document.text[..caret] + code + document.text[caret..];
  }

  /** `replaceSelectedCode`: a non-empty selection is replaced; an empty one is left alone. */
  method ReplaceSelectedCode(document: Document, start: nat, end: nat, newCode: string)
    requires start <= end <= |document.text|
    modifies document
    ensures start < end ==> document.text == Replaced(old(document.text), start, end, newCode)
    ensures start == end ==> document.text == old(document.text)
  {
    if start < end {
      document.text := document.text[..start] + newCode + document.text[end..];
    }
  }
}
