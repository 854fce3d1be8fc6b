/** The command parser (src/commands/parser.ts): a command string is cut at `;`, each
    trimmed non-empty segment loses its `[...]` criteria blocks, and what is left is split
    into words by a quote-aware tokenizer. */
module Parser {
  import opened Wrappers
  import opened Seqs
  import opened Text
  import opened Commands

  /** The separator test of tokenize as written, `/|\s/.test(c)`: the empty alternative of
      the pattern matches every string, so every character counts as a separator. */
  predicate SourceSeparator(c: char) {
    true
  }

  /** The separator test evidently intended: `\s`, white space and line terminators. */
  predicate WhitespaceSeparator(c: char) {
    IsSpace(c)
  }

  /** The variables of tokenize between two characters. */
  datatype Lexer = Lexer(tokens: seq<string>, current: string, inQuotes: bool)

  /** The concatenation of the tokens. */
  function Concat(ts: seq<string>): string {
    if ts == [] then [] else Concat(ts[..|ts| - 1]) + ts[|ts| - 1]
  }

  /** Whether an odd number of double quotes occurs in `s`. */
  function Quoted(s: string): bool {
    if s == [] then false
    else if s[|s| - 1] == '"' then !Quoted(s[..|s| - 1])
    else Quoted(s[..|s| - 1])
  }

  /** The characters tokenize keeps: all but the quotes and the separators outside quotes. */
  function Kept(sep: char -> bool, s: string): string {
    if s == [] then []
    else
      var c := s[|s| - 1];
      var init := s[..|s| - 1];
      Kept(sep, init) + (if c == '"' || (!Quoted(init) && sep(c)) then [] else [c])
  }

  /** One character of tokenize (src/commands/parser.ts:10-27): a double quote flips the
      quoting and is dropped; outside quotes a separator closes a non-empty current token;
      any other character joins the current token. */
  function Step(sep: char -> bool, st: Lexer, c: char): Lexer {
    if c == '"' then st.(inQuotes := !st.inQuotes)
    else if !st.inQuotes && sep(c) then
      if |st.current| > 0 then Lexer(st.tokens + [st.current], [], false) else st
    else st.(current := st.current + [c])
  }

  /** The lexer after the characters of `s`. */
  function Run(sep: char -> bool, s: string): Lexer {
    if s == [] then Lexer([], [], false) else Step(sep, Run(sep, s[..|s| - 1]), s[|s| - 1])
  }

  /** After any input the finished tokens are non-empty and quote-free, the lexer is inside
      quotes exactly after an odd number of quotes, and the tokens and the current token
      hold exactly the kept characters, in order. */
  lemma {:induction false} RunFacts(sep: char -> bool, s: string)
    ensures var st := Run(sep, s);
            && (forall i :: 0 <= i < |st.tokens| ==> st.tokens[i] != [] && '"' !in st.tokens[i])
            && '"' !in st.current
            && st.inQuotes == Quoted(s)
            && Concat(st.tokens) + st.current == Kept(sep, s)
  {
    if s != [] {
      var init, c := s[..|s| - 1], s[|s| - 1];
      var prev := Run(sep, init);
      RunFacts(sep, init);
      assert Run(sep, s) == Step(sep, prev, c);
      if c != '"' && !prev.inQuotes && sep(c) && |prev.current| > 0 {
        ConcatSnoc(prev.tokens, prev.current);
      }
    }
  }

  lemma ConcatSnoc(ts: seq<string>, t: string)
    ensures Concat(ts + [t]) == Concat(ts) + t
  {
    assert (ts + [t])[..|ts|] == ts;
  }

  /** tokenize: the finished tokens, and the last one if it is not empty. */
  function Tokens(sep: char -> bool, s: string): seq<string> {
    var st := Run(sep, s);
    if |st.current| > 0 then st.tokens + [st.current] else st.tokens
  }

  /** Every token is non-empty and holds no double quote, and the tokens concatenate to the
      kept characters of the input. */
  lemma TokensFacts(sep: char -> bool, s: string)
    ensures var ts := Tokens(sep, s);
            && (forall i :: 0 <= i < |ts| ==> ts[i] != [] && '"' !in ts[i])
            && Concat(ts) == Kept(sep, s)
  {
    var st := Run(sep, s);
    RunFacts(sep, s);
    ConcatSnoc(st.tokens, st.current);
  }

  /** tokenize (src/commands/parser.ts:5-34) as the character loop of the source. */
  method Tokenize(sep: char -> bool, input: string) returns (tokens: seq<string>)
    ensures tokens == Tokens(sep, input)
  {
    tokens := [];
    var current := "";
    var inQuotes := false;
    var i := 0;
    while i < |input|
      invariant 0 <= i <= |input|
      invariant Lexer(tokens, current, inQuotes) == Run(sep, input[..i])
    {
      var c := input[i];
      assert input[..i + 1][..i] == input[..i];
      if c == '"' {
        inQuotes := !inQuotes;
      } else if !inQuotes && sep(c) {
        if |current| > 0 {
          tokens := tokens + [current];
          current := "";
        }
      } else {
        current := current + [c];
      }
      i := i + 1;
    }
    assert input[..i] == input;
    if |current| > 0 {
      tokens := tokens + [current];
    }
  }

  /** Tokens that concatenate to nothing are no tokens at all. */
  lemma NoTokens(ts: seq<string>)
    requires forall i :: 0 <= i < |ts| ==> ts[i] != []
    requires Concat(ts) == []
    ensures ts == []
  {
  }

  /** As written, the separator test drops every character outside quotes. */
  lemma {:induction false} SourceKeepsQuotedOnly(s: string)
    requires '"' !in s
    ensures Kept(SourceSeparator, s) == []
  {
    if s != [] {
      assert '"' !in s[..|s| - 1];
      SourceKeepsQuotedOnly(s[..|s| - 1]);
    }
  }

  /** As written, tokenize returns no token at all for an input without quotes, so "focus
      left" has no action. */
  lemma SourceTokenizerLosesWords()
    ensures Tokens(SourceSeparator, "focus left") == []
  {
    var s := "focus left";
    SourceKeepsQuotedOnly(s);
    TokensFacts(SourceSeparator, s);
    NoTokens(Tokens(SourceSeparator, s));
  }

  /** A word without quotes and without separators reads as that one word. */
  lemma {:induction false} RunWord(sep: char -> bool, w: string)
    requires '"' !in w && forall c :: c in w ==> !sep(c)
    ensures Run(sep, w) == Lexer([], w, false)
  {
    if w != [] {
      assert w[..|w| - 1] + [w[|w| - 1]] == w;
      RunWord(sep, w[..|w| - 1]);
    }
  }

  /** A non-empty word without quotes and separators is one token. */
  lemma OneWord(sep: char -> bool, w: string)
    requires w != [] && '"' !in w && forall c :: c in w ==> !sep(c)
    ensures Tokens(sep, w) == [w]
  {
    RunWord(sep, w);
  }

  /** After a finished prefix, a word without quotes and separators becomes the current
      token. */
  lemma {:induction false} RunWordAfter(sep: char -> bool, s: string, k: nat, ts: seq<string>)
    requires k <= |s| && Run(sep, s[..k]) == Lexer(ts, [], false)
    requires '"' !in s[k..] && forall c :: c in s[k..] ==> !sep(c)
    ensures Run(sep, s) == Lexer(ts, s[k..], false)
    decreases |s|
  {
    if |s| == k {
      assert s[..k] == s;
    } else {
      var init := s[..|s| - 1];
      assert init[..k] == s[..k];
      assert init[k..] + [s[|s| - 1]] == s[k..];
      assert s[|s| - 1] in s[k..];
      assert forall c :: c in init[k..] ==> c in s[k..];
      RunWordAfter(sep, init, k, ts);
    }
  }

  /** Inside quotes every character but a quote joins the current token. */
  lemma {:induction false} RunQuoted(sep: char -> bool, w: string)
    requires '"' !in w
    ensures Run(sep, "\"" + w) == Lexer([], w, true)
  {
    var s := "\"" + w;
    if w != [] {
      assert s[..|s| - 1] == "\"" + w[..|w| - 1];
      assert w[..|w| - 1] + [w[|w| - 1]] == w;
      RunQuoted(sep, w[..|w| - 1]);
    } else {
      assert s[..|s| - 1] == [];
    }
  }

  /** Quoted text, separators and all, is one token without its quotes, whatever the
      separator test. */
  lemma QuotedWord(sep: char -> bool, w: string)
    requires w != [] && '"' !in w
    ensures Tokens(sep, "\"" + w + "\"") == [w]
  {
    var s := "\"" + w + "\"";
    assert s[..|s| - 1] == "\"" + w;
    RunQuoted(sep, w);
  }

  /** `t` holds an operator at `k`: `!=` or `=`. */
  predicate OpAt(t: string, k: nat) {
    k < |t| && (t[k] == '=' || (t[k] == '!' && k + 1 < |t| && t[k + 1] == '='))
  }

  /** The first operator position at or after `k`, or |t|. */
  function FirstOp(t: string, k: nat): (r: nat)
    requires k <= |t|
    ensures k <= r <= |t| && (r < |t| ==> OpAt(t, r))
    decreases |t| - k
  {
    if k == |t| || OpAt(t, k) then k else FirstOp(t, k + 1)
  }

  /** No operator comes before the one FirstOp finds. */
  lemma {:induction false} FirstOpIsFirst(t: string, k: nat)
    requires k <= |t|
    ensures forall j :: k <= j < FirstOp(t, k) ==> !OpAt(t, j)
    decreases |t| - k
  {
    if k < |t| && !OpAt(t, k) {
      FirstOpIsFirst(t, k + 1);
    }
  }

  /** The first line terminator at or after `k`, or |t|. */
  function LineEnd(t: string, k: nat): (r: nat)
    requires k <= |t|
    ensures k <= r <= |t| && (r < |t| ==> IsLineTerminator(t[r]))
    decreases |t| - k
  {
    if k == |t| || IsLineTerminator(t[k]) then k else LineEnd(t, k + 1)
  }

  /** No line terminator comes before the one LineEnd finds. */
  lemma {:induction false} LineEndIsFirst(t: string, k: nat)
    requires k <= |t|
    ensures forall j :: k <= j < LineEnd(t, k) ==> !IsLineTerminator(t[j])
    decreases |t| - k
  {
    if k < |t| && !IsLineTerminator(t[k]) {
      LineEndIsFirst(t, k + 1);
    }
  }

  /** Just past the last line terminator before `k`, or 0. */
  function LineStart(t: string, k: nat): (r: nat)
    requires k <= |t|
    ensures r <= k && (r > 0 ==> IsLineTerminator(t[r - 1]))
  {
    if k == 0 || IsLineTerminator(t[k - 1]) then k else LineStart(t, k - 1)
  }

  /** No line terminator lies between LineStart and `k`. */
  lemma {:induction false} LineStartIsLast(t: string, k: nat)
    requires k <= |t|
    ensures forall j :: LineStart(t, k) <= j < k ==> !IsLineTerminator(t[j])
  {
    if k > 0 && !IsLineTerminator(t[k - 1]) {
      LineStartIsLast(t, k - 1);
    }
  }

  /** parseCriteriaToken (src/commands/parser.ts:36-52), the match of `/(.*?)(!=|=)(.*)/`:
      without an operator the token is a key that must exist; otherwise the key is what
      precedes the first operator and the value what follows it. A regular-expression `.`
      stops at line terminators, so the key starts after the last one before the operator
      and the value ends at the first one after it. */
  function ParseCriteriaToken(token: string): (c: Criterion)
    ensures FirstOp(token, 0) == |token| ==> c == Criterion(token, Exists, None)
    ensures FirstOp(token, 0) < |token| ==> c.op != Exists && c.value.Some?
  {
    var k := FirstOp(token, 0);
    if k == |token| then Criterion(token, Exists, None)
    else
      var start := LineStart(token, k);
      var (op, len) := if token[k] == '!' then (NotEq, 2) else (Eq, 1);
      Criterion(token[start..k], op, Some(token[k + len..LineEnd(token, k + len)]))
  }

  /** A key or value with none of the characters the operator pattern reacts to. */
  predicate Plain(s: string) {
    forall c :: c in s ==> c != '=' && c != '!' && !IsLineTerminator(c)
  }

  /** How a criterion is written inside a `[...]` block. */
  function CriterionText(c: Criterion): string {
    match c.op
    case Exists => c.key
    case Eq => c.key + "=" + c.value.GetOr("")
    case NotEq => c.key + "!=" + c.value.GetOr("")
  }

  /** Reading back a written criterion gives it back, when its key and value are plain and
      an existence test carries no value. */
  lemma ParseCriterionText(c: Criterion)
    requires Plain(c.key) && (c.op.Exists? <==> c.value.None?)
    requires c.value.Some? ==> forall ch :: ch in c.value.value ==> !IsLineTerminator(ch)
    ensures ParseCriteriaToken(CriterionText(c)) == c
  {
    if c.op.Exists? {
      var t := CriterionText(c);
      assert t == c.key;
      forall j | 0 <= j < |t| ensures !OpAt(t, j) {
        assert t[j] in c.key;
      }
      FirstOpIsFirst(t, 0);
      assert FirstOp(t, 0) == |t|;
    } else {
      ParseValuedText(c);
    }
  }

  /** The same for a criterion with an operator: the key, the operator, then the value. */
  lemma ParseValuedText(c: Criterion)
    requires Plain(c.key) && !c.op.Exists? && c.value.Some?
    requires forall ch :: ch in c.value.value ==> !IsLineTerminator(ch)
    ensures ParseCriteriaToken(CriterionText(c)) == c
  {
    var t := CriterionText(c);
    var n := |c.key|;
    var v := c.value.value;
    var op := if c.op.NotEq? then "!=" else "=";
    var len := |op|;
    assert t == c.key + op + v;
    ThreePieces(c.key, op, v);
    assert FirstOp(t, 0) == n by {
      forall j | 0 <= j < n ensures !OpAt(t, j) {
        assert t[j] == c.key[j] && c.key[j] in c.key;
      }
      FirstOpIsFirst(t, 0);
      assert OpAt(t, n);
    }
    assert LineStart(t, n) == 0 by {
      forall j | 0 <= j < n ensures !IsLineTerminator(t[j]) {
        assert t[j] == c.key[j] && c.key[j] in c.key;
      }
      LineStartIsLast(t, n);
    }
    assert LineEnd(t, n + len) == |t| by {
      forall j | n + len <= j < |t| ensures !IsLineTerminator(t[j]) {
        assert t[j] == v[j - n - len] && v[j - n - len] in v;
      }
      LineEndIsFirst(t, n + len);
    }
  }

  /** The first and last of three concatenated pieces, cut back out. */
  lemma ThreePieces(a: string, b: string, c: string)
    requires b != []
    ensures (a + b + c)[0..|a|] == a && (a + b + c)[|a| + |b|..|a + b + c|] == c && (a + b + c)[|a|] == b[0]
  {
    var t := a + b + c;
    assert t[0..|a|] == a;
    assert t[|a| + |b|..|t|] == c by {
      forall j | 0 <= j < |c| ensures t[|a| + |b|..|t|][j] == c[j] {
        assert t[|a| + |b| + j] == c[j];
      }
    }
  }

  /** parseCriteria (src/commands/parser.ts:54-61): each token of the trimmed block read
      as a criterion, in order. */
  function ParseCriteria(sep: char -> bool, block: string): (cs: seq<Criterion>)
  {
    var trimmed := Trim(block);
    if trimmed == [] then [] else CriteriaOf(Tokens(sep, trimmed))
  }

  /** `tokens.map(parseCriteriaToken)`. */
  function CriteriaOf(tokens: seq<string>): (cs: seq<Criterion>)
    ensures |cs| == |tokens|
  {
    if tokens == [] then [] else [ParseCriteriaToken(tokens[0])] + CriteriaOf(tokens[1..])
  }

  /** The end of the `[...]` block whose content starts at `i`: the first `]` or line
      terminator at or after `i`, or |s|. The block closes only at a `]`. */
  function CloseAt(s: string, i: nat): (q: nat)
    requires i <= |s|
    ensures i <= q <= |s| && (q < |s| ==> s[q] == ']' || IsLineTerminator(s[q]))
    decreases |s| - i
  {
    if i == |s| || s[i] == ']' || IsLineTerminator(s[i]) then i else CloseAt(s, i + 1)
  }

  /** A block's content holds no `]` and no line terminator: the match is the shortest. */
  lemma {:induction false} CloseAtIsFirst(s: string, i: nat)
    requires i <= |s|
    ensures forall j :: i <= j < CloseAt(s, i) ==> s[j] != ']' && !IsLineTerminator(s[j])
    decreases |s| - i
  {
    if i < |s| && s[i] != ']' && !IsLineTerminator(s[i]) {
      CloseAtIsFirst(s, i + 1);
    }
  }

  /** A match of `/\[(.*?)\]/` starts at `p`: an opening bracket closed on the same line. */
  predicate BlockAt(s: string, p: nat) {
    p < |s| && s[p] == '[' && CloseAt(s, p + 1) < |s| && s[CloseAt(s, p + 1)] == ']'
  }

  /** Where the next match starts, searching from `from`, or |s|. */
  function NextBlock(s: string, from: nat): (p: nat)
    requires from <= |s|
    ensures from <= p <= |s| && (p < |s| ==> BlockAt(s, p))
    decreases |s| - from
  {
    if from == |s| || BlockAt(s, from) then from else NextBlock(s, from + 1)
  }

  /** The search finds the leftmost match: none starts before it. */
  lemma {:induction false} NextBlockLeftmost(s: string, from: nat)
    requires from <= |s|
    ensures forall j :: from <= j < NextBlock(s, from) ==> !BlockAt(s, j)
    decreases |s| - from
  {
    if from < |s| && !BlockAt(s, from) {
      NextBlockLeftmost(s, from + 1);
    }
  }

  /** The contents of the blocks from `from` on, left to right. */
  function Blocks(s: string, from: nat): (bs: seq<string>)
    requires from <= |s|
    decreases |s| - from
  {
    var p := NextBlock(s, from);
    if p == |s| then []
    else
      var q := CloseAt(s, p + 1);
      [s[p + 1..q]] + Blocks(s, q + 1)
  }

  /** The criteria of a sequence of blocks, block by block. */
  function Collect(sep: char -> bool, blocks: seq<string>): seq<Criterion> {
    if blocks == [] then [] else Collect(sep, blocks[..|blocks| - 1]) + ParseCriteria(sep, blocks[|blocks| - 1])
  }

  /** The criteria of all blocks of a segment. */
  function BlockCriteria(sep: char -> bool, s: string): seq<Criterion> {
    Collect(sep, Blocks(s, 0))
  }

  /** The text from `from` on with every block replaced by one space
      (`replace(criteriaRegex, " ")`). */
  function Replaced(s: string, from: nat): string
    requires from <= |s|
    decreases |s| - from
  {
    var p := NextBlock(s, from);
    if p == |s| then s[from..]
    else s[from..p] + " " + Replaced(s, CloseAt(s, p + 1) + 1)
  }

  /** The blocks from `from` on are the next block, then those after it. */
  lemma BlocksNext(s: string, from: nat, p: nat, q: nat)
    requires from <= |s| && p == NextBlock(s, from) && p < |s| && q == CloseAt(s, p + 1)
    ensures Blocks(s, from) == [s[p + 1..q]] + Blocks(s, q + 1)
  {
  }

  /** A block's content: no `]` and no line terminator. */
  predicate Unclosed(b: string) {
    forall j :: 0 <= j < |b| ==> b[j] != ']' && !IsLineTerminator(b[j])
  }

  /** The matches are the shortest ones: no block's content holds a `]` or a line
      terminator. */
  lemma {:induction false} BlocksShortest(s: string, from: nat)
    requires from <= |s|
    ensures var bs := Blocks(s, from);
            forall i :: 0 <= i < |bs| ==> Unclosed(bs[i])
    decreases |s| - from
  {
    var p := NextBlock(s, from);
    if p < |s| {
      var q := CloseAt(s, p + 1);
      BlocksNext(s, from, p, q);
      BlocksShortest(s, q + 1);
      CloseAtIsFirst(s, p + 1);
      assert Unclosed(s[p + 1..q]);
    }
  }

  /** Collecting one more block appends its criteria. */
  lemma CollectSnoc(sep: char -> bool, blocks: seq<string>, i: nat, found: seq<Criterion>)
    requires i < |blocks| && found == ParseCriteria(sep, blocks[i])
    ensures Collect(sep, blocks[..i + 1]) == Collect(sep, blocks[..i]) + found
  {
    assert blocks[..i + 1][..i] == blocks[..i];
  }

  /** A segment without an opening bracket has no criteria and keeps its text. */
  lemma {:induction false} NoBlocks(s: string, from: nat)
    requires from <= |s| && '[' !in s[from..]
    ensures Blocks(s, from) == [] && Replaced(s, from) == s[from..]
  {
  }

  /** `criteria.push(...parseCriteria(match[1]))` (src/commands/parser.ts:72) for the
      match at index `i`. */
  method PushCriteria(sep: char -> bool, criteria: seq<Criterion>, matches: seq<string>, i: nat)
    returns (r: seq<Criterion>)
    requires i < |matches| && criteria == Collect(sep, matches[..i])
    ensures r == Collect(sep, matches[..i + 1])
  {
    var found := ParseCriteria(sep, matches[i]);
    CollectSnoc(sep, matches, i, found);
    r := criteria + found;
  }

  /** The `regex.exec` loop of extractCriteriaBlocks (src/commands/parser.ts:70-73): each
      match's criteria are pushed in turn, left to right. */
  method CollectAll(sep: char -> bool, matches: seq<string>) returns (criteria: seq<Criterion>)
    ensures criteria == Collect(sep, matches)
  {
    criteria := [];
    var i := 0;
    while i < |matches|
      invariant i <= |matches|
      invariant criteria == Collect(sep, matches[..i])
    {
      criteria := PushCriteria(sep, criteria, matches, i);
      i := i + 1;
    }
    assert matches[..i] == matches;
  }

  /** The matches come from the regular-expression engine, which Blocks models. */
  method CollectCriteria(sep: char -> bool, segment: string) returns (criteria: seq<Criterion>)
    ensures criteria == BlockCriteria(sep, segment)
  {
    var matches := Blocks(segment, 0);
    criteria := CollectAll(sep, matches);
  }

  /** extractCriteriaBlocks (src/commands/parser.ts:63-78): the criteria of every block, then
      the segment with the blocks blanked out, trimmed. */
  method ExtractCriteriaBlocks(sep: char -> bool, segment: string) returns (criteria: seq<Criterion>, command: string)
    ensures criteria == BlockCriteria(sep, segment)
    ensures command == Trim(Replaced(segment, 0))
  {
    criteria := CollectCriteria(sep, segment);
    command := Trim(Replaced(segment, 0));
  }

  /** A segment as the command string yields it: non-empty, without `;`, and with no white
      space at either end. */
  predicate CleanSegment(s: string) {
    s != [] && ';' !in s && !IsSpace(s[0]) && !IsSpace(s[|s| - 1])
  }

  /** The segments of a command string: cut at `;`, trimmed, the empty ones dropped. */
  function Segments(input: string): (segs: seq<string>)
    ensures forall i :: 0 <= i < |segs| ==> CleanSegment(segs[i])
  {
    var parts := Split(input, ';');
    NonEmptyTrimmedClean(parts);
    NonEmptyTrimmed(parts)
  }

  function NonEmptyTrimmed(parts: seq<string>): seq<string> {
    if parts == [] then []
    else
      var t := Trim(parts[0]);
      (if t == [] then [] else [t]) + NonEmptyTrimmed(parts[1..])
  }

  lemma {:induction false} NonEmptyTrimmedClean(parts: seq<string>)
    requires forall i :: 0 <= i < |parts| ==> ';' !in parts[i]
    ensures forall i :: 0 <= i < |NonEmptyTrimmed(parts)| ==> CleanSegment(NonEmptyTrimmed(parts)[i])
  {
    if parts != [] {
      var rest := NonEmptyTrimmed(parts[1..]);
      NonEmptyTrimmedClean(parts[1..]);
      var t := Trim(parts[0]);
      if t != [] {
        TrimmedClean(parts[0]);
        var r := NonEmptyTrimmed(parts);
        assert r == [t] + rest;
        forall i | 0 <= i < |r| ensures CleanSegment(r[i]) {
          if i > 0 { assert r[i] == rest[i - 1]; }
        }
      }
    }
  }

  /** A trimmed piece without `;` that is not empty is a clean segment. */
  lemma TrimmedClean(part: string)
    requires ';' !in part && Trim(part) != []
    ensures CleanSegment(Trim(part))
  {
    TrimWithin(part, ';');
  }

  /** One segment: its criteria, and the words of what is left, the first being the action. */
  function ParseSegment(sep: char -> bool, segment: string): Command {
    var tokens := Tokens(sep, Trim(Replaced(segment, 0)));
    Command(segment, if tokens == [] then "" else tokens[0], if tokens == [] then [] else tokens[1..],
            BlockCriteria(sep, segment))
  }

  /** parseCommandString (src/commands/parser.ts:80-98) with the separator test `sep`: one
      command per trimmed non-empty segment, in order. It is total: every input parses. */
  function ParseCommandString(sep: char -> bool, input: string): (cs: seq<Command>)
    ensures |cs| == |Segments(input)|
    ensures forall i :: 0 <= i < |cs| ==> cs[i].raw == Segments(input)[i] && CleanSegment(cs[i].raw)
    ensures forall i :: 0 <= i < |cs| ==> cs[i].criteria == BlockCriteria(sep, cs[i].raw)
  {
    Map(Segments(input), (seg: string) => ParseSegment(sep, seg))
  }

  /** With the intended separator, a segment without brackets has no criteria, and its
      words are the action and the arguments. */
  lemma SegmentWithoutBlocks(seg: string)
    requires CleanSegment(seg) && '[' !in seg
    ensures var ts := Tokens(WhitespaceSeparator, seg); var c := ParseSegment(WhitespaceSeparator, seg);
            && c.criteria == []
            && (ts == [] ==> c.action == [] && c.args == [])
            && (ts != [] ==> [c.action] + c.args == ts)
  {
    assert seg[0..] == seg;
    NoBlocks(seg, 0);
    TrimTrimmed(seg);
  }

  /** A string without `;` is one piece. */
  lemma {:induction false} SplitNone(s: string)
    requires ';' !in s
    ensures Split(s, ';') == [s]
  {
    if s != [] {
      SplitNone(s[1..]);
      assert [s[0]] + s[1..] == s;
    }
  }

  /** A clean segment on its own is one command. */
  lemma OneSegment(sep: char -> bool, s: string)
    requires CleanSegment(s)
    ensures ParseCommandString(sep, s) == [ParseSegment(sep, s)]
  {
    SplitNone(s);
    TrimTrimmed(s);
    assert NonEmptyTrimmed([s]) == [s] + NonEmptyTrimmed([]);
  }

  /** The characters of a joined string are those of its parts and of the separator. */
  lemma {:induction false} JoinChars(parts: seq<string>, sep: string, c: char)
    ensures c in Join(parts, sep) ==> c in sep || exists i :: 0 <= i < |parts| && c in parts[i]
    ensures (exists i :: 0 <= i < |parts| && c in parts[i]) ==> c in Join(parts, sep)
  {
    if |parts| > 1 {
      JoinChars(parts[1..], sep, c);
      assert Join(parts, sep) == parts[0] + sep + Join(parts[1..], sep);
      if c in Join(parts, sep) && c !in sep && c !in parts[0] {
        var i :| 0 <= i < |parts[1..]| && c in parts[1..][i];
        assert c in parts[i + 1];
      }
      if exists i :: 0 <= i < |parts| && c in parts[i] {
        var i :| 0 <= i < |parts| && c in parts[i];
        if i > 0 {
          assert c in parts[1..][i - 1];
        }
      }
    }
  }

  /** No segment survives exactly when every piece trims to nothing. */
  lemma {:induction false} NonEmptyTrimmedNone(parts: seq<string>)
    ensures NonEmptyTrimmed(parts) == [] <==> forall i :: 0 <= i < |parts| ==> Trim(parts[i]) == []
  {
    if parts != [] {
      NonEmptyTrimmedNone(parts[1..]);
      assert forall i :: 1 <= i < |parts| ==> parts[i] == parts[1..][i - 1];
    }
  }

  /** A command string holds no command exactly when it is made of white space and `;`. */
  lemma BlankParsesNothing(sep: char -> bool, s: string)
    ensures ParseCommandString(sep, s) == [] <==> forall c :: c in s ==> IsSpace(c) || c == ';'
  {
    var parts := Split(s, ';');
    forall i | 0 <= i < |parts|
      ensures Trim(parts[i]) == [] <==> forall c :: c in parts[i] ==> IsSpace(c)
    {
      TrimEmpty(parts[i]);
    }
    NonEmptyTrimmedNone(parts);
    if forall c :: c in s ==> IsSpace(c) || c == ';' {
      forall i, c | 0 <= i < |parts| && c in parts[i] ensures IsSpace(c) {
        JoinChars(parts, [';'], c);
      }
    } else {
      var c :| c in s && !IsSpace(c) && c != ';';
      JoinChars(parts, [';'], c);
      var i :| 0 <= i < |parts| && c in parts[i];
      assert Trim(parts[i]) != [];
    }
  }

  /** `focus left` parses to the action `focus` with the argument `left` under the
      intended separator. */
  lemma IntendedParsesFocusLeft()
    ensures ParseCommandString(WhitespaceSeparator, "focus left")
            == [Command("focus left", "focus", ["left"], [])]
  {
    var s := "focus left";
    PlainText(s);
    OneSegment(WhitespaceSeparator, s);
    SegmentWithoutBlocks(s);
    FocusLeftTokens(s);
  }

  lemma PlainText(s: string)
    requires s == "focus left"
    ensures CleanSegment(s) && '[' !in s && '"' !in s
  {
    forall i | 0 <= i < |s| ensures s[i] != '[' && s[i] != '"' && s[i] != ';' {
    }
  }

  lemma FocusLeftTokens(s: string)
    requires s == "focus left"
    ensures Tokens(WhitespaceSeparator, s) == ["focus", "left"]
  {
    var w1, w2 := "focus", "left";
    assert s[..5] == w1 && s[6..] == w2 && s[5] == ' ';
    LowerWord(w1);
    LowerWord(w2);
    RunWord(WhitespaceSeparator, w1);
    assert s[..6][..5] == s[..5];
    assert Run(WhitespaceSeparator, s[..6]) == Lexer([w1], [], false);
    RunWordAfter(WhitespaceSeparator, s, 6, [w1]);
  }

  /** A word of lower-case letters holds no quote and no white space. */
  lemma LowerWord(w: string)
    requires forall i :: 0 <= i < |w| ==> 'a' <= w[i] <= 'z'
    ensures '"' !in w && forall c :: c in w ==> !WhitespaceSeparator(c)
  {
  }

  /** As written, no character outside quotes survives the tokenizer, so a segment without
      double quotes parses to an empty action, no arguments and no criteria, whatever it
      says: `focus left` and `[app_id=firefox] kill` do nothing. */
  lemma {:induction false} SourceSegmentIsEmpty(seg: string)
    requires '"' !in seg
    ensures ParseSegment(SourceSeparator, seg) == Command(seg, "", [], [])
  {
    var t := Trim(Replaced(seg, 0));
    ReplacedWithin(seg, 0, '"');
    TrimWithin(Replaced(seg, 0), '"');
    SourceNoTokens(t);
    BlocksWithin(seg, 0, '"');
    SourceCollectsNothing(Blocks(seg, 0));
  }

  /** As written, a quote-free text has no tokens. */
  lemma SourceNoTokens(t: string)
    requires '"' !in t
    ensures Tokens(SourceSeparator, t) == []
  {
    SourceKeepsQuotedOnly(t);
    TokensFacts(SourceSeparator, t);
    NoTokens(Tokens(SourceSeparator, t));
  }

  /** As written, quote-free blocks contribute no criteria. */
  lemma {:induction false} SourceCollectsNothing(blocks: seq<string>)
    requires forall i :: 0 <= i < |blocks| ==> '"' !in blocks[i]
    ensures Collect(SourceSeparator, blocks) == []
  {
    if blocks != [] {
      var last := blocks[|blocks| - 1];
      SourceCollectsNothing(blocks[..|blocks| - 1]);
      TrimWithin(last, '"');
      SourceNoTokens(Trim(last));
    }
  }

  /** Blocks hold only characters of the segment. */
  lemma {:induction false} BlocksWithin(s: string, from: nat, c: char)
    requires from <= |s| && c !in s
    ensures forall i :: 0 <= i < |Blocks(s, from)| ==> c !in Blocks(s, from)[i]
    decreases |s| - from
  {
    var p := NextBlock(s, from);
    if p < |s| {
      var q := CloseAt(s, p + 1);
      BlocksNext(s, from, p, q);
      BlocksWithin(s, q + 1, c);
      assert forall x :: x in s[p + 1..q] ==> x in s;
    }
  }

  /** Blanking the blocks out brings in nothing but spaces. */
  lemma {:induction false} ReplacedWithin(s: string, from: nat, c: char)
    requires from <= |s| && c !in s && c != ' '
    ensures c !in Replaced(s, from)
    decreases |s| - from
  {
    var p := NextBlock(s, from);
    assert forall x :: x in s[from..] ==> x in s;
    if p < |s| {
      ReplacedWithin(s, CloseAt(s, p + 1) + 1, c);
      assert forall x :: x in s[from..p] ==> x in s;
    }
  }

  /** As written, `focus left` and `[app_id=firefox] kill` parse to one command each with an
      empty action, no arguments and no criteria. */
  lemma SourceParsesNothing()
    ensures ParseCommandString(SourceSeparator, "focus left") == [Command("focus left", "", [], [])]
    ensures ParseCommandString(SourceSeparator, "[app_id=firefox] kill")
            == [Command("[app_id=firefox] kill", "", [], [])]
  {
    var a, b := "focus left", "[app_id=firefox] kill";
    assert CleanSegment(a) && '"' !in a;
    assert CleanSegment(b) && '"' !in b;
    OneSegment(SourceSeparator, a);
    OneSegment(SourceSeparator, b);
    SourceSegmentIsEmpty(a);
    SourceSegmentIsEmpty(b);
  }
}
