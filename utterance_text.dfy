/**
 * The string rules of `utterance_callback` in module_main.py: where the
 * user's text comes from, which texts are shutdown commands, how
 * `<think>…</think>` spans are cut from the model's reply, and which
 * characters of the reply reach text-to-speech.
 */
module UtteranceText {
  import opened Wrappers
  import opened Text

  // ---------------------------------------------------------------------
  // Extraction
  // ---------------------------------------------------------------------

  /** The JSON value under `text`, as far as the callback cares. */
  datatype JsonValue = JString(s: string) | JNull | JOther

  /**
   * What `json.loads(message)` gives: a decode error, an object with or
   * without a `text` member, or some other JSON value (array, number,
   * string, literal).
   */
  datatype Decoded = NotJson | JsonObject(text: Option<JsonValue>) | JsonNonObject

  /**
   * The extracted user text, or `Raised` when extraction throws something
   * other than a decode error (calling `.get` on a non-object, or `.strip`
   * on a non-string). That exception reaches the callback's outer handler.
   */
  datatype Extracted = UserText(text: string) | Raised

  /** Step 1 of the callback, for the raw `message` and its decoding. */
  function ExtractText(message: string, decoded: Decoded): (e: Extracted)
    ensures decoded.NotJson? ==> e == UserText(Strip(message))
    ensures decoded.JsonObject? && decoded.text.None? ==> e == UserText([])
    ensures decoded.JsonObject? && decoded.text.Some? && decoded.text.value.JString? ==>
      e == UserText(Strip(decoded.text.value.s))
    ensures e.Raised? <==> decoded.JsonNonObject? || (decoded.JsonObject? && decoded.text.Some? && !decoded.text.value.JString?)
    ensures e.UserText? ==> IsStripped(e.text)
  {
    match decoded
    case NotJson => UserText(Strip(message))
    case JsonNonObject => Raised
    case JsonObject(field) =>
      match field
      case None => UserText(Strip([]))
      case Some(JString(s)) => UserText(Strip(s))
      case Some(_) => Raised
  }

  /** Plain text that is not JSON is taken whole, minus surrounding whitespace. */
  lemma PlainTextKept(p: string, m: string, q: string)
    requires forall k :: 0 <= k < |p| ==> IsSpace(p[k])
    requires forall k :: 0 <= k < |q| ==> IsSpace(q[k])
    requires IsStripped(m)
    ensures ExtractText(p + m + q, NotJson) == UserText(m)
  {
    StripPadded(p, m, q);
  }

  /** The callback stops right after extraction exactly when the text is empty or blank. */
  lemma EmptyIffBlank(message: string, decoded: Decoded)
    requires decoded.NotJson?
    ensures ExtractText(message, decoded).text == [] <==> forall k :: 0 <= k < |message| ==> IsSpace(message[k])
  {
    StripEmptyIffBlank(message);
  }

  // ---------------------------------------------------------------------
  // Shutdown commands
  // ---------------------------------------------------------------------

  const ShutdownPc: string := "shutdown pc"
  const Apagate: string := "ap\U{E1}gate"
  const ApagarSistema: string := "apagar sistema"

  /** The lower-cased text contains one of the three shutdown phrases. */
  predicate IsShutdownCommand(text: string): (b: bool)
    ensures b ==> |text| >= |Apagate|
  {
    var cmd := Lower(text);
    Contains(cmd, ShutdownPc) || Contains(cmd, Apagate) || Contains(cmd, ApagarSistema)
  }

  /**
   * A phrase anywhere in the text, in any mix of case, is a command: the
   * test is a case-insensitive substring match.
   */
  lemma {:induction false} CommandAnywhere(a: string, phrase: string, b: string)
    requires phrase == ShutdownPc || phrase == Apagate || phrase == ApagarSistema
    ensures IsShutdownCommand(a + phrase + b)
  {
    var s := a + phrase + b;
    assert Lower(phrase) == phrase by {
      forall k | 0 <= k < |phrase| ensures Lower(phrase)[k] == phrase[k] {
        assert !IsUpper(phrase[k]);
      }
    }
    LowerAppend(a + phrase, b);
    LowerAppend(a, phrase);
    var low := Lower(s);
    assert low == Lower(a) + phrase + Lower(b);
    assert low[|a|..|a| + |phrase|] == phrase;
    assert OccursAt(low, phrase, |a|);
  }

  /** Capital letters count as their lower-case forms: "APÁGATE" is a command. */
  lemma CapitalsMatch()
    ensures IsShutdownCommand("AP\U{C1}GATE")
  {
    var s := "AP\U{C1}GATE";
    var low := Lower(s);
    assert low[0] == 'a' && low[1] == 'p' && low[2] == '\U{E1}' && low[3] == 'g';
    assert low[4] == 'a' && low[5] == 't' && low[6] == 'e';
    assert low[0..7] == Apagate;
    assert OccursAt(low, Apagate, 0);
  }

  /** Everyday text is not a command. */
  lemma GreetingIsNotCommand()
    ensures !IsShutdownCommand("hola")
  {
    var low := Lower("hola");
    assert |low| == 4;
    assert forall i: nat :: !OccursAt(low, ShutdownPc, i);
    assert forall i: nat :: !OccursAt(low, Apagate, i);
    assert forall i: nat :: !OccursAt(low, ApagarSistema, i);
  }

  // ---------------------------------------------------------------------
  // Think blocks
  // ---------------------------------------------------------------------

  const OpenTag: string := "<think>"
  const CloseTag: string := "</think>"

  /**
   * `re.sub(r"<think>.*?</think>", "", reply, flags=re.DOTALL)`. The scan
   * takes the leftmost opening tag and the nearest closing tag after it,
   * removes that span, and goes on after it. Without a closing tag after
   * the leftmost opening tag nothing more can match.
   */
  function RemoveThinkBlocks(s: string): (r: string)
    decreases |s|, 1
    ensures |r| <= |s|
    ensures !Contains(s, OpenTag) ==> r == s
  {
    var open := IndexOf(s, OpenTag, 0);
    if open.None? then s
    else
      var close := IndexOf(s, CloseTag, open.value + |OpenTag|);
      if close.None? then s
      else CutBlock(s, open.value, close.value)
  }

  /** The block from the opening tag at `i` to the closing tag at `j` is cut out, and removal goes on after it. */
  function CutBlock(s: string, i: nat, j: nat): string
    requires i <= j && j + |CloseTag| <= |s|
    decreases |s|, 0
  {
    s[..i] + RemoveThinkBlocks(s[j + |CloseTag|..])
  }

  /** The reply after step 4: think blocks removed, then stripped. */
  function CleanReply(raw: string): (r: string)
    ensures IsStripped(r)
    ensures !Contains(raw, OpenTag) ==> r == Strip(raw)
  {
    Strip(RemoveThinkBlocks(raw))
  }

  /**
   * One think block is cut out and the text after it is processed in turn:
   * `a` has no opening tag before the block, and `m` holds no closing tag,
   * so the span removed is the shortest one.
   */
  lemma {:induction false} RemovesFirstBlock(a: string, m: string, b: string)
    requires !Contains(a, OpenTag)
    requires !Contains(m, CloseTag)
    ensures RemoveThinkBlocks(a + OpenTag + m + CloseTag + b) == a + RemoveThinkBlocks(b)
  {
    var s := a + OpenTag + m + CloseTag + b;
    OpenFound(a, m, b);
    CloseFound(a, m, b);
    var i, j := |a|, |a| + |OpenTag| + |m|;
    RemoveAt(s, i, j);
    BlockPieces(a, m, b);
  }

  /**
   * An opening tag with no closing tag after it never matches: the reply
   * is kept whole, reasoning included, as happens when the model's reply
   * is cut off inside a think block.
   */
  lemma UnclosedKept(a: string, m: string)
    requires !Contains(a, OpenTag)
    requires !Contains(m, CloseTag)
    ensures RemoveThinkBlocks(a + OpenTag + m) == a + OpenTag + m
  {
    var s := a + OpenTag + m;
    var from := |a| + |OpenTag|;
    assert s == a + (OpenTag + m);
    Split(OpenTag, m);
    FirstOpenTag(a, OpenTag + m);
    var close := IndexOf(s, CloseTag, from);
    if close.Some? {
      CloseInTail(a + OpenTag, m, close.value);
      assert false;
    }
  }

  /** A closing tag in `p + m` at or after `|p|` lies inside `m`. */
  lemma CloseInTail(p: string, m: string, j: nat)
    requires |p| <= j && OccursAt(p + m, CloseTag, j)
    ensures OccursAt(m, CloseTag, j - |p|)
  {
    var s := p + m;
    assert s[j..j + |CloseTag|] == m[j - |p|..j - |p| + |CloseTag|];
  }

  /** The block's opening tag is the leftmost one. */
  lemma OpenFound(a: string, m: string, b: string)
    requires !Contains(a, OpenTag)
    ensures IndexOf(a + OpenTag + m + CloseTag + b, OpenTag, 0) == Some(|a|)
  {
    var t := OpenTag + m + CloseTag + b;
    assert a + OpenTag + m + CloseTag + b == a + t;
    Split(OpenTag, m + CloseTag + b);
    assert t == OpenTag + (m + CloseTag + b);
    FirstOpenTag(a, t);
  }

  /** The block's closing tag is the first one after its opening tag. */
  lemma CloseFound(a: string, m: string, b: string)
    requires !Contains(m, CloseTag)
    ensures IndexOf(a + OpenTag + m + CloseTag + b, CloseTag, |a| + |OpenTag|) == Some(|a| + |OpenTag| + |m|)
  {
    var u := CloseTag + b;
    assert a + OpenTag + m + CloseTag + b == (a + OpenTag) + m + u;
    Split(CloseTag, b);
    FirstCloseTag(a + OpenTag, m, u);
  }

  /** What the block leaves on either side. */
  lemma BlockPieces(a: string, m: string, b: string)
    ensures var s := a + OpenTag + m + CloseTag + b;
      var j := |a| + |OpenTag| + |m|;
      && j + |CloseTag| <= |s|
      && CutBlock(s, |a|, j) == a + RemoveThinkBlocks(b)
  {
    var s := a + OpenTag + m + CloseTag + b;
    var j := |a| + |OpenTag| + |m|;
    assert s[..|a|] == a;
    assert s[j + |CloseTag|..] == b;
  }

  lemma Split(x: string, y: string)
    ensures (x + y)[..|x|] == x && (x + y)[|x|..] == y
  {
  }

  /** One step of the removal, once both tags are found. */
  lemma RemoveAt(s: string, i: nat, j: nat)
    requires IndexOf(s, OpenTag, 0) == Some(i)
    requires IndexOf(s, CloseTag, i + |OpenTag|) == Some(j)
    ensures i <= j && j + |CloseTag| <= |s|
    ensures RemoveThinkBlocks(s) == CutBlock(s, i, j)
  {
  }

  /** The leftmost opening tag of `a + t`, when `a` has none and `t` starts with one, is at `|a|`. */
  lemma FirstOpenTag(a: string, t: string)
    requires !Contains(a, OpenTag)
    requires |t| >= |OpenTag| && t[..|OpenTag|] == OpenTag
    ensures IndexOf(a + t, OpenTag, 0) == Some(|a|)
  {
    var s := a + t;
    assert s[|a|..|a| + |OpenTag|] == t[..|OpenTag|];
    assert OccursAt(s, OpenTag, |a|);
    forall k | 0 <= k < |a| ensures !OccursAt(s, OpenTag, k) {
      NoOpenTagStraddles(a, t, k);
    }
    LeftmostIsFirst(s, OpenTag, |a|);
  }

  /**
   * No opening tag starts inside `a` (which has none) and runs into `t`,
   * when `t` itself starts with an opening tag: the tag has no proper
   * prefix that is also its suffix.
   */
  lemma NoOpenTagStraddles(a: string, t: string, k: nat)
    requires !Contains(a, OpenTag)
    requires |t| >= |OpenTag| && t[..|OpenTag|] == OpenTag
    requires k < |a|
    ensures !OccursAt(a + t, OpenTag, k)
  {
    var s := a + t;
    if k + |OpenTag| <= |a| {
      assert forall x :: k <= x < k + |OpenTag| ==> s[x] == a[x];
      assert s[k..k + |OpenTag|] == a[k..k + |OpenTag|];
      assert !OccursAt(a, OpenTag, k);
    } else {
      // The occurrence would put '<' at index |a| - k of the tag.
      var d := |a| - k;
      assert 0 < d < |OpenTag|;
      assert OpenTag[d] != '<';
      assert s[k + d] == t[0] == '<';
    }
  }

  /** Likewise for the closing tag after an opening one: `m` has no closing tag. */
  lemma FirstCloseTag(p: string, m: string, t: string)
    requires !Contains(m, CloseTag)
    requires |t| >= |CloseTag| && t[..|CloseTag|] == CloseTag
    ensures IndexOf(p + m + t, CloseTag, |p|) == Some(|p| + |m|)
  {
    CloseTagAtJoin(p, m, t);
    NoCloseTagBefore(p, m, t);
    LeftmostFrom(p + m + t, CloseTag, |p|, |p| + |m|);
  }

  lemma CloseTagAtJoin(p: string, m: string, t: string)
    requires |t| >= |CloseTag| && t[..|CloseTag|] == CloseTag
    ensures OccursAt(p + m + t, CloseTag, |p| + |m|)
  {
    var s := p + m + t;
    var at := |p| + |m|;
    assert s[at..at + |CloseTag|] == t[..|CloseTag|];
  }

  lemma NoCloseTagBefore(p: string, m: string, t: string)
    requires !Contains(m, CloseTag)
    requires |t| >= |CloseTag| && t[..|CloseTag|] == CloseTag
    ensures AbsentBetween(p + m + t, CloseTag, |p|, |p| + |m|)
  {
    forall k | |p| <= k < |p| + |m| ensures !OccursAt(p + m + t, CloseTag, k) {
      NoCloseTagStraddles(p, m, t, k);
    }
  }

  lemma NoCloseTagStraddles(p: string, m: string, t: string, k: nat)
    requires !Contains(m, CloseTag)
    requires |t| >= |CloseTag| && t[..|CloseTag|] == CloseTag
    requires |p| <= k < |p| + |m|
    ensures !OccursAt(p + m + t, CloseTag, k)
  {
    var s := p + m + t;
    var at := |p| + |m|;
    if k + |CloseTag| <= at {
      assert s[k..k + |CloseTag|] == m[k - |p|..k - |p| + |CloseTag|];
      assert !OccursAt(m, CloseTag, k - |p|);
    } else {
      var d := at - k;
      assert 0 < d < |CloseTag|;
      assert CloseTag[d] != '<';
      assert s[k + d] == t[0] == '<';
    }
  }

  /** `p` does not start anywhere in `s` from index `from` up to, not including, `to`. */
  predicate AbsentBetween(s: string, p: string, from: nat, to: nat) {
    forall k :: from <= k < to ==> !OccursAt(s, p, k)
  }

  /** `find` from 0 returns the first occurrence. */
  lemma LeftmostIsFirst(s: string, p: string, at: nat)
    requires OccursAt(s, p, at)
    requires forall k :: 0 <= k < at ==> !OccursAt(s, p, k)
    ensures IndexOf(s, p, 0) == Some(at)
  {
    LeftmostFrom(s, p, 0, at);
  }

  /** `find` from `from` returns the first occurrence at or after `from`. */
  lemma LeftmostFrom(s: string, p: string, from: nat, at: nat)
    requires from <= at && OccursAt(s, p, at)
    requires AbsentBetween(s, p, from, at)
    ensures IndexOf(s, p, from) == Some(at)
  {
    var r := IndexOf(s, p, from);
    assert r.Some?;
    assert !(r.value < at);
  }

  /** Text with no think block is only trimmed: a plain answer is spoken as written. */
  lemma PlainReplyOnlyTrimmed(raw: string)
    requires !Contains(raw, OpenTag)
    ensures CleanReply(raw) == Strip(raw)
  {
  }

  /**
   * A reply made of a reasoning block followed by the answer keeps only the
   * answer. Other text before the block (without a tag) stays.
   */
  lemma ReasoningDropped(reasoning: string, answer: string)
    requires !Contains(reasoning, CloseTag)
    requires !Contains(answer, OpenTag)
    ensures CleanReply(OpenTag + reasoning + CloseTag + answer) == Strip(answer)
  {
    var none: string := [];
    assert !OccursAt(none, OpenTag, 0);
    RemovesFirstBlock(none, reasoning, answer);
    assert none + OpenTag == OpenTag;
    assert none + RemoveThinkBlocks(answer) == answer;
  }

  // ---------------------------------------------------------------------
  // Text-to-speech filter
  // ---------------------------------------------------------------------

  /**
   * The complement of `[^a-zA-Z0-9\s.,?!;:"'-<>]`: ASCII letters and digits,
   * whitespace, `. , ? ! ; :` and `"`, `>`, and the range from `'` (0x27)
   * to `<` (0x3C). That range also takes in `( ) * + -` and `/`.
   */
  predicate SpeechChar(c: char): (b: bool)
    ensures c == '(' || c == ')' || c == '*' || c == '+' || c == '/' ==> b
    ensures b && c as int >= 128 ==> IsSpace(c)
  {
    || ('a' <= c <= 'z') || ('A' <= c <= 'Z') || ('0' <= c <= '9')
    || IsSpace(c)
    || c == '.' || c == ',' || c == '?' || c == '!' || c == ';' || c == ':' || c == '"'
    || ('\'' <= c <= '<')
    || c == '>'
  }

  /** `re.sub(r'[^…]', '', reply)`: the characters outside the set are deleted. */
  function CleanForSpeech(s: string): (r: string)
    ensures |r| <= |s|
    ensures forall k :: 0 <= k < |r| ==> SpeechChar(r[k])
    ensures (forall k :: 0 <= k < |s| ==> SpeechChar(s[k])) ==> r == s
  {
    if s == [] then []
    else if SpeechChar(s[0]) then [s[0]] + CleanForSpeech(s[1..])
    else CleanForSpeech(s[1..])
  }

  /** `sub` is a subsequence of `s`: it is obtained by deleting characters. */
  predicate IsSubsequence(sub: string, s: string)
    decreases |s|
  {
    if sub == [] then true
    else if s == [] then false
    else if sub[0] == s[0] then IsSubsequence(sub[1..], s[1..])
    else IsSubsequence(sub, s[1..])
  }

  /** The filter keeps exactly the allowed characters: each allowed one as often as before, each other one never. */
  lemma {:induction false} CleanKeepsAllowed(s: string)
    ensures forall c :: SpeechChar(c) ==> multiset(CleanForSpeech(s))[c] == multiset(s)[c]
    ensures forall c :: !SpeechChar(c) ==> multiset(CleanForSpeech(s))[c] == 0
  {
    if s != [] {
      CleanKeepsAllowed(s[1..]);
      assert s == [s[0]] + s[1..];
      assert multiset(s) == multiset([s[0]]) + multiset(s[1..]);
      if SpeechChar(s[0]) {
        assert multiset(CleanForSpeech(s)) == multiset([s[0]]) + multiset(CleanForSpeech(s[1..]));
      }
    }
  }

  /** The filter preserves the order of what it keeps. */
  lemma {:induction false} CleanIsSubsequence(s: string)
    ensures IsSubsequence(CleanForSpeech(s), s)
  {
    if s != [] {
      CleanIsSubsequence(s[1..]);
      var r := CleanForSpeech(s);
      if SpeechChar(s[0]) {
        assert r[0] == s[0] && r[1..] == CleanForSpeech(s[1..]);
      } else {
        SkipFront(r, s);
      }
    }
  }

  lemma SkipFront(r: string, s: string)
    requires s != [] && IsSubsequence(r, s[1..])
    ensures IsSubsequence(r, s)
    decreases |s|, 0
  {
    if r != [] && r[0] == s[0] {
      SubsequenceTail(r, s[1..]);
    }
  }

  lemma {:induction false} SubsequenceTail(r: string, s: string)
    requires r != [] && IsSubsequence(r, s)
    ensures IsSubsequence(r[1..], s)
    decreases |s|, 1
  {
    if s != [] {
      if r[0] == s[0] {
        assert IsSubsequence(r[1..], s[1..]);
        SkipFront(r[1..], s);
      } else {
        SubsequenceTail(r, s[1..]);
        SkipFront(r[1..], s);
      }
    }
  }

  /** Cleaning twice is cleaning once. */
  lemma CleanIdempotent(s: string)
    ensures CleanForSpeech(CleanForSpeech(s)) == CleanForSpeech(s)
  {
  }

  /** Cleaning works piece by piece. */
  lemma {:induction false} CleanAppend(a: string, b: string)
    ensures CleanForSpeech(a + b) == CleanForSpeech(a) + CleanForSpeech(b)
  {
    if a == [] {
      assert a + b == b;
    } else {
      assert (a + b)[0] == a[0] && (a + b)[1..] == a[1..] + b;
      CleanAppend(a[1..], b);
    }
  }

  /**
   * Spanish accented vowels, the tilde n and the inverted marks are silently
   * dropped from what is spoken, wherever they occur; brackets and the
   * asterisk are spoken.
   */
  lemma SpanishLettersDropped(a: string, c: char, b: string)
    requires || c == '\U{E1}' || c == '\U{E9}' || c == '\U{ED}' || c == '\U{F3}' || c == '\U{FA}'
             || c == '\U{F1}' || c == '\U{C1}' || c == '\U{D1}' || c == '\U{BF}' || c == '\U{A1}'
    ensures CleanForSpeech(a + [c] + b) == CleanForSpeech(a) + CleanForSpeech(b)
    ensures SpeechChar('(') && SpeechChar('*') && SpeechChar(')')
  {
    assert !SpeechChar(c);
    DropOne(a, c, b);
  }

  /** A character outside the speech set vanishes without touching its neighbours. */
  lemma DropOne(a: string, c: char, b: string)
    requires !SpeechChar(c)
    ensures CleanForSpeech(a + [c] + b) == CleanForSpeech(a) + CleanForSpeech(b)
  {
    assert [c][0] == c && [c][1..] == [];
    assert CleanForSpeech([c]) == [];
    CleanAppend(a + [c], b);
    CleanAppend(a, [c]);
    assert CleanForSpeech(a) + [] == CleanForSpeech(a);
  }
}
