/**
 * The WGSL preprocessor that runs when the shaders are loaded. A
 * `//!insert key` line is replaced by the text registered for `key`; a
 * `//!include file` line is replaced by the preprocessed text of that file the
 * first time the file is met, and deleted after that. Fetching a shader file
 * is a lookup in a map from file name to text.
 */
module Shader {
  import opened Wrappers
  import opened Text

  const InsertDirective: string := "//!insert"
  const IncludeDirective: string := "//!include"

  /** The shader names `init` loads, each with a fresh include set. */
  const ShaderNames: seq<string> :=
    ["g2p2g", "bukkitCount", "bukkitAllocate", "bukkitInsert", "particleEmit", "setIndirectArgs", "particleRender"]

  datatype PreprocessError = MissingInsertKey(key: string) | MissingFile(name: string) {
    function Message(): string {
      match this
      case MissingInsertKey(key) => "Could not find expected key [" + key + "] in the list of insert handlers."
      case MissingFile(name) => "Could not load shaders/" + name + ".wgsl"
    }
  }

  /** A directive: non-empty and on one line. */
  predicate IsDirective(d: string) {
    |d| > 0 && forall i | 0 <= i < |d| :: d[i] != '\n'
  }

  /**
   * Replacement text that can stand in for a directive line without leaving
   * an occurrence of the directive before its own end: it holds none, and it
   * does not begin with the directive's tail (which the text before it could
   * complete).
   */
  predicate SafeReplacement(rep: string, d: string) {
    && !Contains(rep, d)
    && forall k | 0 < k < |d| :: !StartsWith(rep, d[k..])
  }

  /** `s.slice(from)`: empty when `from` is past the end. */
  function SliceFrom(s: string, from: nat): string {
    if from <= |s| then s[from..] else ""
  }

  /** The directive line that starts at `p`: `s.slice(p).split('\n')[0]`. */
  function Statement(s: string, p: nat): string
    requires p <= |s|
  {
    FirstLine(s[p..])
  }

  /**
   * The argument of the directive `d` at `p`: the rest of its line after one
   * separator character, `s.slice(p + d.length + 1).split('\n')[0]`.
   */
  function Argument(s: string, p: nat, d: string): string {
    FirstLine(SliceFrom(s, p + |d| + 1))
  }

  /** The key of an insert directive is its argument, trimmed; an include's file name is not trimmed. */
  function InsertKey(s: string, p: nat): string {
    Trim(Argument(s, p, InsertDirective))
  }

  /** The directive line holds the whole directive. */
  lemma StatementCoversDirective(s: string, p: nat, d: string)
    requires IsDirective(d) && OccursAt(s, d, p)
    ensures |d| <= |Statement(s, p)| && Statement(s, p)[..|d|] == d
  {
    assert s[p..][..|d|] == d;
  }

  /**
   * When the line after the directive is longer than the separator, the
   * argument is exactly the rest of the directive line after it.
   */
  lemma ArgumentIsRestOfLine(s: string, p: nat, d: string)
    requires IsDirective(d) && OccursAt(s, d, p)
    requires |d| + 1 <= |Statement(s, p)|
    ensures Argument(s, p, d) == Statement(s, p)[|d| + 1..]
  {
    FirstLineSuffix(s[p..], |d| + 1);
    assert s[p..][|d| + 1..] == s[p + |d| + 1..];
  }

  /** The directive line found at the first directive is also the first occurrence of that line. */
  lemma StatementFoundFirst(s: string, p: nat, d: string)
    requires IsDirective(d) && p == IndexOf(s, d)
    ensures IndexOf(s, Statement(s, p)) == p
  {
    var line := Statement(s, p);
    StatementCoversDirective(s, p, d);
    assert OccursAt(s, line, p);
    forall q | 0 <= q < p
      ensures !OccursAt(s, line, q)
    {
      assert !OccursAt(s, d, q);
      if q + |line| <= |s| {
        assert s[q..q + |line|][..|d|] == s[q..q + |d|];
      }
    }
  }

  /**
   * One rewrite of the first directive line: `replace` swaps exactly that
   * line for the replacement, and when the replacement is safe no
   * occurrence of the directive starts before the replacement's end.
   */
  lemma SpliceStep(s: string, p: nat, d: string, rep: string)
    requires IsDirective(d) && p == IndexOf(s, d)
    requires SafeReplacement(rep, d)
    ensures var e := p + |Statement(s, p)|;
      && p + |d| <= e <= |s|
      && ReplaceFirst(s, Statement(s, p), rep) == s[..p] + rep + s[e..]
      && forall i | 0 <= i < p + |rep| :: !OccursAt(s[..p] + rep + s[e..], d, i)
  {
    var line := Statement(s, p);
    var e := p + |line|;
    StatementCoversDirective(s, p, d);
    StatementFoundFirst(s, p, d);
    var t := s[..p] + rep + s[e..];
    forall i | 0 <= i < p + |rep|
      ensures !OccursAt(t, d, i)
    {
      if OccursAt(t, d, i) {
        NoDirectiveBeforeEnd(s, p, d, rep, i);
      }
    }
  }

  /** The case analysis of `SpliceStep`: an occurrence before the replacement's end is impossible. */
  lemma NoDirectiveBeforeEnd(s: string, p: nat, d: string, rep: string, i: nat)
    requires IsDirective(d) && p == IndexOf(s, d)
    requires SafeReplacement(rep, d)
    requires i < p + |rep|
    requires |d| <= |Statement(s, p)|
    ensures !OccursAt(s[..p] + rep + s[p + |Statement(s, p)|..], d, i)
  {
    var e := p + |Statement(s, p)|;
    var pre, post := s[..p], s[e..];
    if i + |d| > p + |rep| {
      // Such an occurrence would reach the line feed that ends the statement, or past the end.
      if e < |s| {
        assert s[p..][|Statement(s, p)|] == '\n';
        assert post[0] == '\n';
        ReachesLineFeed(pre, rep, post, d, i);
      }
    } else if i + |d| <= p {
      assert !OccursAt(s, d, i);
      assert pre[i..i + |d|] == s[i..i + |d|];
      InsidePrefix(pre, rep + post, d, i);
      assert pre + rep + post == pre + (rep + post);
    } else if i < p {
      // It would begin before the replacement and end inside it.
      StraddlesStart(pre, rep, post, d, i);
    } else {
      assert !OccursAt(rep, d, i - p);
      InsideReplacement(pre, rep, post, d, i);
    }
  }

  lemma InsidePrefix(pre: string, rest: string, d: string, i: nat)
    requires i + |d| <= |pre| && !OccursAt(pre, d, i)
    ensures !OccursAt(pre + rest, d, i)
  {
    assert (pre + rest)[i..i + |d|] == pre[i..i + |d|];
  }

  lemma InsideReplacement(pre: string, rep: string, post: string, d: string, i: nat)
    requires |pre| <= i && i + |d| <= |pre| + |rep| && !OccursAt(rep, d, i - |pre|)
    ensures !OccursAt(pre + rep + post, d, i)
  {
    assert (pre + rep + post)[i..i + |d|] == rep[i - |pre|..i - |pre| + |d|];
  }

  lemma StraddlesStart(pre: string, rep: string, post: string, d: string, i: nat)
    requires i < |pre| < i + |d| <= |pre| + |rep|
    requires forall k | 0 < k < |d| :: !StartsWith(rep, d[k..])
    ensures !OccursAt(pre + rep + post, d, i)
  {
    var k := |pre| - i;
    assert (pre + rep + post)[i..i + |d|][k..] == rep[..|d| - k];
    assert !StartsWith(rep, d[k..]);
  }

  lemma ReachesLineFeed(pre: string, rep: string, post: string, d: string, i: nat)
    requires IsDirective(d)
    requires i < |pre| + |rep| < i + |d| && |post| > 0 && post[0] == '\n'
    ensures !OccursAt(pre + rep + post, d, i)
  {
    var at := |pre| + |rep|;
    assert (pre + rep + post)[at] == '\n';
    assert d[at - i] != '\n';
  }

  /** A removed include leaves an empty line behind: the empty text is a safe replacement. */
  lemma EmptyIsSafe(d: string)
    requires IsDirective(d)
    ensures SafeReplacement("", d)
  {
    assert IndexOf("", d) == -1 by {
      assert !OccursAt("", d, 0);
    }
  }

  lemma {:induction false} SubsetSize(a: set<string>, b: set<string>)
    requires a <= b
    ensures |a| <= |b|
    decreases a
  {
    if a != {} {
      var x :| x in a;
      SubsetSize(a - {x}, b - {x});
    }
  }

  /** Taking up a new file leaves fewer files unseen. */
  lemma FewerUnseen(files: set<string>, seen: set<string>, later: set<string>, name: string)
    requires seen <= later && name in files && name !in seen && name in later
    ensures |files - later| < |files - seen|
  {
    SubsetSize(files - later, (files - seen) - {name});
  }

  predicate AllSafe(handlers: map<string, string>) {
    forall k | k in handlers :: SafeReplacement(handlers[k], InsertDirective)
  }

  /**
   * The insert loop's result on `s`: the first `//!insert` line is replaced
   * by its handler's text, again and again until none is left, and a key
   * without a handler fails with that key. `done` is a position before which
   * `s` holds no insert; it only bounds the recursion.
   */
  function InsertsExpanded(s: string, handlers: map<string, string>, done: nat): (r: Result<string, PreprocessError>)
    requires AllSafe(handlers)
    requires done <= |s| && forall i | 0 <= i < done :: !OccursAt(s, InsertDirective, i)
    ensures r.Ok? ==> !Contains(r.value, InsertDirective)
    ensures r.Err? ==> r.error.MissingInsertKey? && r.error.key !in handlers
    ensures !Contains(s, InsertDirective) ==> r == Ok(s)
    decreases |s| - done
  {
    var p := IndexOf(s, InsertDirective);
    if p == -1 then Ok(s)
    else
      var key := InsertKey(s, p);
      if key !in handlers then Err(MissingInsertKey(key))
      else
        var rep := handlers[key];
        var t := ReplaceFirst(s, Statement(s, p), rep);
        InsertSplice(s, done, p, rep, t);
        InsertsExpanded(t, handlers, p + |rep|)
  }

  /** What one splice of an insert line leaves: the text up to the replacement's end holds no insert, and less is left to scan. */
  lemma InsertSplice(s: string, done: nat, p: int, rep: string, t: string)
    requires done <= |s| && forall i | 0 <= i < done :: !OccursAt(s, InsertDirective, i)
    requires p == IndexOf(s, InsertDirective) && p != -1
    requires SafeReplacement(rep, InsertDirective) && t == ReplaceFirst(s, Statement(s, p), rep)
    ensures done <= p && p + |rep| <= |t| && |t| - (p + |rep|) < |s| - done
    ensures forall i | 0 <= i < p + |rep| :: !OccursAt(t, InsertDirective, i)
    ensures t[..p] == s[..p]
  {
    SpliceStep(s, p, InsertDirective, rep);
    var e := p + |Statement(s, p)|;
    assert t == s[..p] + rep + s[e..];
    assert t[..p] == s[..p];
  }

  /** One round of the insert loop, as `InsertsExpanded` takes it: a splice, then the rest of the loop. */
  lemma InsertsStep(s: string, handlers: map<string, string>, done: nat, p: nat, rep: string, t: string)
    requires AllSafe(handlers)
    requires done <= |s| && forall i | 0 <= i < done :: !OccursAt(s, InsertDirective, i)
    requires p == IndexOf(s, InsertDirective) && InsertKey(s, p) in handlers
    requires rep == handlers[InsertKey(s, p)] && t == ReplaceFirst(s, Statement(s, p), rep)
    ensures done <= p && p + |rep| <= |t| && |t| - (p + |rep|) < |s| - done
    ensures forall i | 0 <= i < p + |rep| :: !OccursAt(t, InsertDirective, i)
    ensures t[..p] == s[..p]
    ensures InsertsExpanded(s, handlers, done) == InsertsExpanded(t, handlers, p + |rep|)
  {
    InsertSplice(s, done, p, rep, t);
  }

  /**
   * The expansion keeps the text before `done` (in particular, everything
   * before the first insert line) and only rewrites what follows.
   */
  lemma {:induction false} InsertsKeepHead(s: string, handlers: map<string, string>, done: nat, v: string)
    requires AllSafe(handlers)
    requires done <= |s| && forall i | 0 <= i < done :: !OccursAt(s, InsertDirective, i)
    requires InsertsExpanded(s, handlers, done) == Ok(v)
    ensures done <= |v| && v[..done] == s[..done]
    decreases |s| - done
  {
    var p := IndexOf(s, InsertDirective);
    if p != -1 {
      var rep := handlers[InsertKey(s, p)];
      var t := ReplaceFirst(s, Statement(s, p), rep);
      InsertsStep(s, handlers, done, p, rep, t);
      var q := p + |rep|;
      InsertsKeepHead(t, handlers, q, v);
      PrefixThrough(v, t, s, done, p, q);
    }
  }

  lemma PrefixThrough(r: string, t: string, s: string, done: nat, p: nat, q: nat)
    requires done <= p <= q && q <= |r| && q <= |t| && p <= |s|
    requires r[..q] == t[..q] && t[..p] == s[..p]
    ensures done <= |r| && r[..done] == s[..done]
  {
    assert r[..done] == r[..q][..done];
    assert t[..done] == t[..q][..done] == t[..p][..done];
    assert s[..done] == s[..p][..done];
  }

  /** A text whose first insert key has no handler fails with exactly that key. */
  lemma FirstMissingKey(s: string, handlers: map<string, string>)
    requires AllSafe(handlers)
    requires Contains(s, InsertDirective) && InsertKey(s, IndexOf(s, InsertDirective)) !in handlers
    ensures InsertsExpanded(s, handlers, 0) == Err(MissingInsertKey(InsertKey(s, IndexOf(s, InsertDirective))))
  {
  }

  /**
   * The preprocessor's state: the shader files, the insert handlers and the
   * set of files already included into the shader being loaded.
   */
  class Preprocessor {
    /** The text `fetch('shaders/' + name + '.wgsl')` returns, by name. */
    const files: map<string, string>
    const handlers: map<string, string>
    var includesAlreadySeen: set<string>
    /** The files taken up for expansion (recorded as seen and fetched), in order. */
    ghost var expanded: seq<string>

    /** Each file is taken up for expansion at most once, and is then recorded as seen. */
    ghost predicate Valid()
      reads this`includesAlreadySeen, this`expanded
    {
      && (forall i, j | 0 <= i < j < |expanded| :: expanded[i] != expanded[j])
      && (forall i | 0 <= i < |expanded| :: expanded[i] in includesAlreadySeen)
    }

    ghost predicate HandlersSafe() {
      forall k | k in handlers :: SafeReplacement(handlers[k], InsertDirective)
    }

    constructor (files: map<string, string>, handlers: map<string, string>)
      ensures Valid() && this.files == files && this.handlers == handlers
      ensures includesAlreadySeen == {} && expanded == []
    {
      this.files := files;
      this.handlers := handlers;
      includesAlreadySeen := {};
      expanded := [];
    }

    /** Loading one shader for `init`: its text, preprocessed with an empty include set. */
    method LoadShader(shaderName: string) returns (r: Result<string, PreprocessError>)
      requires HandlersSafe()
      modifies this`includesAlreadySeen, this`expanded
      ensures Valid()
      ensures r.Ok? ==> !Contains(r.value, IncludeDirective)
      ensures shaderName !in files ==> r == Err(MissingFile(shaderName)) && includesAlreadySeen == {}
      ensures shaderName in files && !Contains(files[shaderName], InsertDirective) &&
              !Contains(files[shaderName], IncludeDirective) ==>
        r == Ok(files[shaderName]) && includesAlreadySeen == {}
      ensures shaderName in files && InsertsExpanded(files[shaderName], handlers, 0).Err? ==>
        r == InsertsExpanded(files[shaderName], handlers, 0) && includesAlreadySeen == {}
      ensures shaderName in files && InsertsExpanded(files[shaderName], handlers, 0).Ok? &&
              !Contains(InsertsExpanded(files[shaderName], handlers, 0).value, IncludeDirective) ==>
        r == InsertsExpanded(files[shaderName], handlers, 0)
    {
      includesAlreadySeen := {};
      expanded := [];
      r := GetShaderText(shaderName);
    }

    /** `getShaderText`: fetches a file and preprocesses it. */
    method GetShaderText(shaderName: string) returns (r: Result<string, PreprocessError>)
      requires Valid() && HandlersSafe()
      modifies this`includesAlreadySeen, this`expanded
      ensures Valid() && old(includesAlreadySeen) <= includesAlreadySeen
      ensures r.Ok? ==> !Contains(r.value, IncludeDirective)
      ensures shaderName !in files ==>
        r == Err(MissingFile(shaderName)) && includesAlreadySeen == old(includesAlreadySeen)
      ensures shaderName in files && !Contains(files[shaderName], InsertDirective) &&
              !Contains(files[shaderName], IncludeDirective) ==>
        r == Ok(files[shaderName]) && includesAlreadySeen == old(includesAlreadySeen)
      ensures shaderName in files && InsertsExpanded(files[shaderName], handlers, 0).Err? ==>
        r == InsertsExpanded(files[shaderName], handlers, 0) && includesAlreadySeen == old(includesAlreadySeen)
      ensures shaderName in files && InsertsExpanded(files[shaderName], handlers, 0).Ok? &&
              !Contains(InsertsExpanded(files[shaderName], handlers, 0).value, IncludeDirective) ==>
        r == InsertsExpanded(files[shaderName], handlers, 0)
      decreases |files.Keys - includesAlreadySeen|, 5
    {
      if shaderName !in files {
        return Err(MissingFile(shaderName));
      }
      r := Preprocess(files[shaderName]);
    }

    /** `preprocess`: every insert first, then every include. */
    method Preprocess(shaderText: string) returns (r: Result<string, PreprocessError>)
      requires Valid() && HandlersSafe()
      modifies this`includesAlreadySeen, this`expanded
      ensures Valid() && old(includesAlreadySeen) <= includesAlreadySeen
      ensures r.Ok? ==> !Contains(r.value, IncludeDirective)
      ensures !Contains(shaderText, InsertDirective) && !Contains(shaderText, IncludeDirective) ==>
        r == Ok(shaderText) && includesAlreadySeen == old(includesAlreadySeen)
      ensures InsertsExpanded(shaderText, handlers, 0).Err? ==>
        r == InsertsExpanded(shaderText, handlers, 0) && includesAlreadySeen == old(includesAlreadySeen)
      ensures InsertsExpanded(shaderText, handlers, 0).Ok? && !Contains(InsertsExpanded(shaderText, handlers, 0).value, IncludeDirective) ==>
        r == InsertsExpanded(shaderText, handlers, 0)
      decreases |files.Keys - includesAlreadySeen|, 4
    {
      var inserted := ExpandInserts(shaderText);
      if inserted.Err? {
        return Err(inserted.error);
      }
      r := ExpandIncludes(inserted.value);
    }

    /**
     * The insert loop: replaces the first `//!insert` line by its handler's
     * text until none is left; a key without a handler throws.
     */
    method ExpandInserts(text: string) returns (r: Result<string, PreprocessError>)
      requires HandlersSafe()
      ensures r == InsertsExpanded(text, handlers, 0)
    {
      var shaderText := text;
      ghost var done: nat := 0;
      while true
        invariant done <= |shaderText|
        invariant forall i | 0 <= i < done :: !OccursAt(shaderText, InsertDirective, i)
        invariant InsertsExpanded(shaderText, handlers, done) == InsertsExpanded(text, handlers, 0)
        decreases |shaderText| - done
      {
        var insertPosition := IndexOf(shaderText, InsertDirective);
        if insertPosition == -1 {
          break;
        }
        var insertStatement := Statement(shaderText, insertPosition);
        var insertKey := InsertKey(shaderText, insertPosition);
        if insertKey !in handlers {
          return Err(MissingInsertKey(insertKey));
        }
        ghost var before := shaderText;
        shaderText := ReplaceFirst(shaderText, insertStatement, handlers[insertKey]);
        InsertsStep(before, handlers, done, insertPosition, handlers[insertKey], shaderText);
        done := insertPosition + |handlers[insertKey]|;
      }
      return Ok(shaderText);
    }

    /**
     * The include loop: a file met for the first time is recorded as seen
     * and its preprocessed text is spliced in; a file seen before has its
     * include line deleted.
     */
    method ExpandIncludes(text: string) returns (r: Result<string, PreprocessError>)
      requires Valid() && HandlersSafe()
      modifies this`includesAlreadySeen, this`expanded
      ensures Valid() && old(includesAlreadySeen) <= includesAlreadySeen
      ensures r.Ok? ==> !Contains(r.value, IncludeDirective)
      ensures !Contains(text, IncludeDirective) ==> r == Ok(text) && includesAlreadySeen == old(includesAlreadySeen)
      decreases |files.Keys - includesAlreadySeen|, 3
    {
      var shaderText := text;
      ghost var done: nat := 0;
      EmptyIsSafe(IncludeDirective);
      while true
        invariant Valid() && old(includesAlreadySeen) <= includesAlreadySeen
        invariant done <= |shaderText|
        invariant forall i | 0 <= i < done :: !OccursAt(shaderText, IncludeDirective, i)
        invariant !Contains(text, IncludeDirective) ==> shaderText == text && includesAlreadySeen == old(includesAlreadySeen)
        decreases |files.Keys - includesAlreadySeen|, |shaderText| - done
      {
        var includePosition := IndexOf(shaderText, IncludeDirective);
        if includePosition == -1 {
          break;
        }
        var includeStatement := Statement(shaderText, includePosition);
        var includedFile := Argument(shaderText, includePosition, IncludeDirective);
        if includedFile in includesAlreadySeen {
          ghost var before := shaderText;
          SpliceStep(before, includePosition, IncludeDirective, "");
          shaderText := ReplaceFirst(shaderText, includeStatement, "");
          done := includePosition;
        } else {
          ghost var seenBefore := includesAlreadySeen;
          var includedFileShaderText := IncludeFile(includedFile);
          if includedFileShaderText.Err? {
            return includedFileShaderText;
          }
          FewerUnseen(files.Keys, seenBefore, includesAlreadySeen, includedFile);
          shaderText := ReplaceFirst(shaderText, includeStatement, includedFileShaderText.value);
          done := 0;
        }
      }
      return Ok(shaderText);
    }

    /** The first include of a file: it is recorded as seen, then fetched and preprocessed. */
    method IncludeFile(includedFile: string) returns (r: Result<string, PreprocessError>)
      requires Valid() && HandlersSafe() && includedFile !in includesAlreadySeen
      modifies this`includesAlreadySeen, this`expanded
      ensures Valid() && old(includesAlreadySeen) + {includedFile} <= includesAlreadySeen
      ensures includedFile !in files ==> r == Err(MissingFile(includedFile))
      decreases |files.Keys - includesAlreadySeen|, 2
    {
      includesAlreadySeen := includesAlreadySeen + {includedFile};
      expanded := expanded + [includedFile];
      if includedFile !in files {
        return Err(MissingFile(includedFile));
      }
      FewerUnseen(files.Keys, old(includesAlreadySeen), includesAlreadySeen, includedFile);
      r := GetShaderText(includedFile);
    }
  }
}
