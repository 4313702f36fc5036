/**
 * The parameter-name tokenizer of node-di-ioc (lib/tokenizer.js).
 *
 * Given the source text of a function (what `func.toString()` yields), the
 * tokenizer scans from just after the first `(` and recovers the declared
 * parameter names, skipping line comments and block comments and refusing syntax it
 * cannot map to a single injectable name (defaults, rest parameters,
 * destructuring).
 *
 * The module holds a functional reference definition of one scan step
 * (`ScanStep`) and of the whole scan (`Run`, `Extract`), the imperative scan
 * that mirrors the source (`Scanner`, `ExtractParameterNames`) proved equal to
 * it, and the properties of the reference definition as lemmas.
 */
module Tokenizer {

  datatype Option<T> = None | Some(value: T)

  /** What the tokenizer is given: the source text of a function, or a value that is not a function. */
  datatype Subject = Function(text: string) | NotAFunction

  /**
   * The three outcomes of `extractParameterNames`:
   * `{result: names, success: true}`, `{result: [], success: false, message}`
   * and `null` when the text ends before a closing parenthesis.
   */
  datatype Extraction =
    | Parsed(names: seq<string>)
    | Rejected(message: string)
    | NoClose
  {
    /** The `result` field of the returned record (reading it on `null` fails). */
    function Result(): seq<string>
      requires !NoClose?
    {
      if Parsed? then names else []
    }
  }

  const Separator := ","
  const CloseParenthesis := ")"
  const CommentStart := "//"
  const CommentEnd := "\n"
  const MultiLineCommentStart := "/*"
  const MultiLineCommentEnd := "*/"
  const UnsupportedParameterNamesSyntax: seq<string> := ["=", "...", "{", "}", "[", "]"]

  const NotAFunctionMessage := "Not a function"
  const UnsupportedPrefix := "Unsupported parameter names syntax "

  /* ---------------------------------------------------------------- strings */

  /** `s.startsWith(token, i)` for a position at most one past the end. */
  predicate StartsWithAt(s: string, token: string, i: nat)
  {
    i + |token| <= |s| && s[i..i + |token|] == token
  }

  /** `s.indexOf(c)`: the first position holding `c`, or -1. */
  function IndexOf(s: string, c: char): (r: int)
    ensures -1 <= r < |s|
    ensures r == -1 <==> c !in s
    ensures r >= 0 ==> s[r] == c && c !in s[..r]
  {
    if s == [] then -1
    else if s[0] == c then 0
    else
      var k := IndexOf(s[1..], c);
      if k == -1 then -1
      else
        assert s[..k + 1] == [s[0]] + s[1..][..k];
        k + 1
  }

  /** The characters `String.prototype.trim` removes: ECMAScript WhiteSpace and LineTerminator. */
  predicate IsWhitespace(c: char)
  {
    || c == '\t' || c == '\n' || c == '\U{000B}' || c == '\U{000C}' || c == '\r' || c == ' '
    || c == '\U{00A0}' || c == '\U{1680}' || ('\U{2000}' <= c <= '\U{200A}')
    || c == '\U{2028}' || c == '\U{2029}' || c == '\U{202F}' || c == '\U{205F}'
    || c == '\U{3000}' || c == '\U{FEFF}'
  }

  /** How many whitespace characters `s` starts with. */
  function LeadingWhitespace(s: string): (n: nat)
    ensures n <= |s|
  {
    if s != [] && IsWhitespace(s[0]) then LeadingWhitespace(s[1..]) + 1 else 0
  }

  /** The leading count covers whitespace only, and stops at the first other character. */
  lemma {:induction false} LeadingWhitespaceIsMaximal(s: string)
    ensures forall k :: 0 <= k < LeadingWhitespace(s) ==> IsWhitespace(s[k])
    ensures LeadingWhitespace(s) == |s| || !IsWhitespace(s[LeadingWhitespace(s)])
  {
    if s != [] && IsWhitespace(s[0]) {
      LeadingWhitespaceIsMaximal(s[1..]);
      assert forall k :: 1 <= k < LeadingWhitespace(s) ==> s[k] == s[1..][k - 1];
    }
  }

  /** How many whitespace characters `s` ends with. */
  function TrailingWhitespace(s: string): (n: nat)
    ensures n <= |s|
  {
    if s != [] && IsWhitespace(s[|s| - 1]) then TrailingWhitespace(s[..|s| - 1]) + 1 else 0
  }

  /** The trailing count covers whitespace only, and stops at the last other character. */
  lemma {:induction false} TrailingWhitespaceIsMaximal(s: string)
    ensures forall k :: |s| - TrailingWhitespace(s) <= k < |s| ==> IsWhitespace(s[k])
    ensures TrailingWhitespace(s) == |s| || !IsWhitespace(s[|s| - TrailingWhitespace(s) - 1])
  {
    if s != [] && IsWhitespace(s[|s| - 1]) {
      TrailingWhitespaceIsMaximal(s[..|s| - 1]);
      assert forall k :: |s| - TrailingWhitespace(s) <= k < |s| - 1 ==> s[k] == s[..|s| - 1][k];
    }
  }

  /** `s.trim()`: `s` without its leading and trailing whitespace. */
  function Trim(s: string): (r: string)
    ensures |r| <= |s|
  {
    var i := LeadingWhitespace(s);
    s[i..|s| - TrailingWhitespace(s[i..])]
  }

  /**
   * What `trim` promises: the result neither starts nor ends with whitespace,
   * holds only characters of `s`, and is empty exactly when `s` is all whitespace.
   */
  lemma TrimTrims(s: string)
    ensures Trim(s) == [] || (!IsWhitespace(Trim(s)[0]) && !IsWhitespace(Trim(s)[|Trim(s)| - 1]))
    ensures forall c :: c in Trim(s) ==> c in s
    ensures Trim(s) == [] <==> forall k :: 0 <= k < |s| ==> IsWhitespace(s[k])
  {
    var i := LeadingWhitespace(s);
    var rest := s[i..];
    var j := |s| - TrailingWhitespace(rest);
    var r := s[i..j];
    assert Trim(s) == r;
    LeadingWhitespaceIsMaximal(s);
    TrailingWhitespaceIsMaximal(rest);
    assert forall k :: 0 <= k < |r| ==> r[k] == s[i + k];
    if r != [] {
      assert r[0] == s[i] && r[|r| - 1] == rest[|rest| - TrailingWhitespace(rest) - 1];
    }
  }

  /* ---------------------------------------------------- nextToken, by value */

  /**
   * What `nextToken` returns when every callback yields a defined value: the
   * first token of `tokens`, in array order, that the text starts with at `i`.
   * Nothing is tried when the check is not applicable.
   */
  function FirstToken(applicable: bool, tokens: seq<string>, s: string, i: nat): (r: Option<string>)
    ensures r.Some? ==> applicable && r.value in tokens && StartsWithAt(s, r.value, i)
  {
    if !applicable || tokens == [] then None
    else if StartsWithAt(s, tokens[0], i) then Some(tokens[0])
    else FirstToken(applicable, tokens[1..], s, i)
  }

  /**
   * First-match semantics of `nextToken`: a reported token is the first of the
   * array that matches, and nothing is reported exactly when no token matches
   * or the check is not applicable.
   */
  lemma {:induction false} FirstTokenIsFirst(applicable: bool, tokens: seq<string>, s: string, i: nat)
    ensures FirstToken(applicable, tokens, s, i).Some? ==>
              exists k :: 0 <= k < |tokens| && tokens[k] == FirstToken(applicable, tokens, s, i).value &&
                forall j :: 0 <= j < k ==> !StartsWithAt(s, tokens[j], i)
    ensures FirstToken(applicable, tokens, s, i).None? <==>
              !applicable || forall k :: 0 <= k < |tokens| ==> !StartsWithAt(s, tokens[k], i)
  {
    if applicable && tokens != [] && !StartsWithAt(s, tokens[0], i) {
      var r := FirstToken(applicable, tokens[1..], s, i);
      FirstTokenIsFirst(applicable, tokens[1..], s, i);
      if r.Some? {
        var k :| 0 <= k < |tokens[1..]| && tokens[1..][k] == r.value &&
                 forall j :: 0 <= j < k ==> !StartsWithAt(s, tokens[1..][j], i);
        assert tokens[k + 1] == r.value;
        forall j | 0 <= j < k + 1 ensures !StartsWithAt(s, tokens[j], i) {
          if j > 0 { assert tokens[j] == tokens[1..][j - 1]; }
        }
      } else {
        forall k | 0 <= k < |tokens| ensures !StartsWithAt(s, tokens[k], i) {
          if k > 0 { assert tokens[k] == tokens[1..][k - 1]; }
        }
      }
    } else if applicable && tokens != [] {
      assert tokens[0] == FirstToken(applicable, tokens, s, i).value;
    }
  }

  /* ------------------------------------------------ the scan, by value */

  /** A snapshot of the `tokenizer` record's scan state. */
  datatype Scan = Scan(index: nat, inComment: bool, inMultiLineComment: bool, current: string, parameter: seq<string>)
  {
    /** Neither in a line comment nor in a block comment. */
    predicate Outside()
    {
      !inMultiLineComment && !inComment
    }
  }

  /** The state the scan starts in, at position `start`. */
  function Initial(start: nat): Scan
  {
    Scan(start, false, false, "", [])
  }

  /** `fastFailOnUnsupportedParameterNamesSyntax`: the message when an unsupported token starts here outside comments. */
  function FastFail(s: string, st: Scan): Option<string>
  {
    match FirstToken(st.Outside(), UnsupportedParameterNamesSyntax, s, st.index)
    case None => None
    case Some(t) => Some(UnsupportedPrefix + t)
  }

  /** `tokenizeSingleLineComments`: open a line comment, then close it at a line feed. */
  function SingleLineComments(s: string, st: Scan): (r: Scan)
    ensures st.index <= r.index && (st.index <= |s| ==> r.index <= |s|)
    ensures r.current == st.current && r.parameter == st.parameter
    ensures r.inMultiLineComment == st.inMultiLineComment
  {
    var afterStart :=
      if FirstToken(st.Outside(), [CommentStart], s, st.index).Some?
      then st.(inComment := true, index := st.index + |CommentStart|)
      else st;
    if FirstToken(!afterStart.inMultiLineComment && afterStart.inComment, [CommentEnd], s, afterStart.index).Some?
    then afterStart.(inComment := false, index := afterStart.index + |CommentEnd|)
    else afterStart
  }

  /** `tokenizeMultiLineComments`: open a block comment, then close it at its terminator. */
  function MultiLineComments(s: string, st: Scan): (r: Scan)
    ensures st.index <= r.index && (st.index <= |s| ==> r.index <= |s|)
    ensures r.current == st.current && r.parameter == st.parameter
    ensures r.inComment == st.inComment
  {
    var afterStart :=
      if FirstToken(st.Outside(), [MultiLineCommentStart], s, st.index).Some?
      then st.(inMultiLineComment := true, index := st.index + |MultiLineCommentStart|)
      else st;
    if FirstToken(afterStart.inMultiLineComment && !afterStart.inComment, [MultiLineCommentEnd], s, afterStart.index).Some?
    then afterStart.(inMultiLineComment := false, index := afterStart.index + |MultiLineCommentEnd|)
    else afterStart
  }

  /** Both comment passes, in the order the loop runs them. */
  function AfterComments(s: string, st: Scan): Scan
  {
    MultiLineComments(s, SingleLineComments(s, st))
  }

  /** The separator callback: push the trimmed buffer when it is not empty, then clear it. */
  function Flush(st: Scan): Scan
  {
    var name := Trim(st.current);
    st.(parameter := if |name| > 0 then st.parameter + [name] else st.parameter, current := "")
  }

  /** What one iteration of the scan loop does: go on from a new state, or return. */
  datatype Step = Next(scan: Scan) | Done(outcome: Extraction)

  /** One iteration of the `while` loop of `extractParameterNames`. */
  function ScanStep(s: string, st: Scan): (r: Step)
    requires st.index < |s|
    ensures r.Next? ==> st.index < r.scan.index <= |s| + 1
    ensures r.Done? ==> !r.outcome.NoClose?
  {
    match FastFail(s, st)
    case Some(message) => Done(Rejected(message))
    case None =>
      var c := AfterComments(s, st);
      match FirstToken(c.Outside(), [Separator, CloseParenthesis], s, c.index)
      case Some(t) =>
        var flushed := Flush(c);
        if t == Separator then Next(flushed.(index := flushed.index + 1)) else Done(Parsed(flushed.parameter))
      case None =>
        var appended := if c.Outside() && c.index < |s| then c.current + [s[c.index]] else c.current;
        Next(c.(current := appended, index := c.index + 1))
  }

  /** The loop of `extractParameterNames` run to the end, from state `st`. */
  function Run(s: string, st: Scan): Extraction
    decreases |s| - st.index
  {
    if st.index < |s| then
      match ScanStep(s, st)
      case Done(outcome) => outcome
      case Next(st') => Run(s, st')
    else
      NoClose
  }

  /** Where the scan starts: one past the first `(`, or 0 when there is none. */
  function StartIndex(text: string): (r: nat)
    ensures '(' in text ==> 0 < r <= |text| && text[r - 1] == '(' && '(' !in text[..r - 1]
    ensures '(' !in text ==> r == 0
  {
    IndexOf(text, '(') + 1
  }

  /** `extractParameterNames`, by value. */
  function Extract(subject: Subject): Extraction
  {
    match subject
    case NotAFunction => Rejected(NotAFunctionMessage)
    case Function(text) => Run(text, Initial(StartIndex(text)))
  }

  /* ------------------------------------------------ properties of the scan */

  /** A name the tokenizer can report: non-empty, trimmed, with no separator and no closing parenthesis. */
  predicate WellFormedName(name: string)
  {
    && |name| > 0
    && !IsWhitespace(name[0]) && !IsWhitespace(name[|name| - 1])
    && ',' !in name && ')' !in name
  }

  /** Every collected name is well formed and the buffer holds no separator and no closing parenthesis. */
  predicate WellFormedScan(st: Scan)
  {
    && (forall i :: 0 <= i < |st.parameter| ==> WellFormedName(st.parameter[i]))
    && ',' !in st.current && ')' !in st.current
  }

  /** One step keeps the scan well formed, and a successful step returns well-formed names. */
  lemma StepKeepsWellFormed(s: string, st: Scan)
    requires st.index < |s| && WellFormedScan(st)
    ensures ScanStep(s, st).Next? ==> WellFormedScan(ScanStep(s, st).scan)
    ensures ScanStep(s, st).Done? && ScanStep(s, st).outcome.Parsed? ==>
              forall i :: 0 <= i < |ScanStep(s, st).outcome.names| ==> WellFormedName(ScanStep(s, st).outcome.names[i])
  {
    if FastFail(s, st).None? {
      var c := AfterComments(s, st);
      assert WellFormedScan(c);
      var flushed := Flush(c);
      assert WellFormedScan(flushed) by {
        var name := Trim(c.current);
        TrimTrims(c.current);
        assert forall ch :: ch in name ==> ch in c.current;
      }
      if FirstToken(c.Outside(), [Separator, CloseParenthesis], s, c.index).None? && c.Outside() && c.index < |s| {
        var stops := [Separator, CloseParenthesis];
        FirstTokenIsFirst(c.Outside(), stops, s, c.index);
        assert !StartsWithAt(s, stops[0], c.index) && !StartsWithAt(s, stops[1], c.index);
        assert s[c.index..c.index + 1] == [s[c.index]];
      }
    }
  }

  /** Every name of a successful scan is non-empty, trimmed, and holds neither `,` nor `)`. */
  lemma {:induction false} RunNamesWellFormed(s: string, st: Scan)
    requires WellFormedScan(st)
    ensures Run(s, st).Parsed? ==> forall i :: 0 <= i < |Run(s, st).names| ==> WellFormedName(Run(s, st).names[i])
    decreases |s| - st.index
  {
    if st.index < |s| {
      StepKeepsWellFormed(s, st);
      if ScanStep(s, st).Next? {
        RunNamesWellFormed(s, ScanStep(s, st).scan);
      }
    }
  }

  /** What `extractParameterNames` reports on success is a list of well-formed names. */
  lemma ExtractedNamesWellFormed(subject: Subject)
    ensures Extract(subject).Parsed? ==>
              forall i :: 0 <= i < |Extract(subject).names| ==> WellFormedName(Extract(subject).names[i])
  {
    if subject.Function? {
      RunNamesWellFormed(subject.text, Initial(StartIndex(subject.text)));
    }
  }

  /** Names are only ever added at the end: the names collected so far open the final list. */
  lemma {:induction false} RunKeepsCollectedNames(s: string, st: Scan)
    ensures Run(s, st).Parsed? ==> st.parameter <= Run(s, st).names
    decreases |s| - st.index
  {
    if st.index < |s| && ScanStep(s, st).Next? {
      RunKeepsCollectedNames(s, ScanStep(s, st).scan);
    }
  }

  /** Success needs a `)` at or after the position the scan is at; text that runs out yields `NoClose`. */
  lemma {:induction false} RunParsedNeedsClose(s: string, st: Scan)
    requires st.index <= |s|
    ensures Run(s, st).Parsed? ==> ')' in s[st.index..]
    decreases |s| - st.index
  {
    if st.index < |s| {
      match ScanStep(s, st)
      case Done(outcome) =>
        if outcome.Parsed? {
          var c := AfterComments(s, st);
          assert StartsWithAt(s, CloseParenthesis, c.index);
          assert s[c.index] == ')' && st.index <= c.index < |s|;
          assert s[st.index..][c.index - st.index] == ')';
        }
      case Next(next) =>
        assert Run(s, st) == Run(s, next);
        if next.index <= |s| {
          RunParsedNeedsClose(s, next);
          assert s[next.index..] == s[st.index..][next.index - st.index..];
        }
    }
  }

  /** A rejection names the unsupported token it met, with the source's message. */
  lemma {:induction false} RunRejectionMessage(s: string, st: Scan)
    ensures Run(s, st).Rejected? ==>
              exists t :: t in UnsupportedParameterNamesSyntax && Run(s, st).message == UnsupportedPrefix + t
    decreases |s| - st.index
  {
    if st.index < |s| {
      match ScanStep(s, st)
      case Done(outcome) =>
        if outcome.Rejected? {
          var t := FirstToken(st.Outside(), UnsupportedParameterNamesSyntax, s, st.index).value;
          assert outcome.message == UnsupportedPrefix + t;
        }
      case Next(next) =>
        RunRejectionMessage(s, next);
    }
  }

  /** Outside comments, a position where an unsupported token starts ends the scan with that token's message. */
  lemma UnsupportedSyntaxRejected(s: string, st: Scan, t: string)
    requires st.index < |s| && st.Outside()
    requires FirstToken(true, UnsupportedParameterNamesSyntax, s, st.index) == Some(t)
    ensures Run(s, st) == Rejected("Unsupported parameter names syntax " + t)
  {
  }

  /**
   * Inside a comment nothing is checked for unsupported syntax, and a step
   * that is still inside a comment once the comment markers are handled
   * appends nothing, pushes nothing and does not stop the scan: separators,
   * `)` and unsupported tokens in comments are ignored.
   */
  lemma CommentsAreSkipped(s: string, st: Scan)
    requires st.index < |s|
    requires !st.Outside() || FastFail(s, st).None?
    requires !AfterComments(s, st).Outside()
    ensures ScanStep(s, st).Next?
    ensures ScanStep(s, st).scan.current == st.current && ScanStep(s, st).scan.parameter == st.parameter
  {
  }

  /** Text whose first `(` is followed at once by `)` has an empty parameter list. */
  lemma EmptyParameterList(text: string)
    requires '(' in text && StartIndex(text) < |text| && text[StartIndex(text)] == ')'
    ensures Extract(Function(text)) == Parsed([])
  {
    var st := Initial(StartIndex(text));
    assert text[st.index..st.index + 1] == [')'];
    assert FastFail(text, st).None? by {
      assert forall k :: 0 <= k < |UnsupportedParameterNamesSyntax| ==>
               !StartsWithAt(text, UnsupportedParameterNamesSyntax[k], st.index);
    }
    assert AfterComments(text, st) == st by {
      assert !StartsWithAt(text, CommentStart, st.index) && !StartsWithAt(text, MultiLineCommentStart, st.index);
    }
    assert !StartsWithAt(text, Separator, st.index) && StartsWithAt(text, CloseParenthesis, st.index);
    assert FirstToken(true, [Separator, CloseParenthesis], text, st.index) == Some(CloseParenthesis);
    assert Trim("") == "";
    assert Flush(st) == st;
    assert ScanStep(text, st) == Done(Parsed([]));
  }

  /** Whatever the subject, a rejection carries one of the source's two kinds of message. */
  lemma ExtractRejectionMessage(subject: Subject)
    ensures Extract(subject).Rejected? ==>
              Extract(subject).message == "Not a function" ||
              exists t :: t in UnsupportedParameterNamesSyntax && Extract(subject).message == UnsupportedPrefix + t
  {
    if subject.Function? {
      RunRejectionMessage(subject.text, Initial(StartIndex(subject.text)));
    }
  }

  /** The scan of a function's text starts one past its first `(`. */
  lemma StartsAfterFirstParenthesis(text: string, k: nat)
    requires k < |text| && text[k] == '(' && '(' !in text[..k]
    ensures StartIndex(text) == k + 1
  {
    assert text[k] in text;
  }

  /** Characters that may start a token the scan reacts to outside comments. */
  predicate Special(c: char)
  {
    c in {'=', '.', '{', '}', '[', ']', '/', ',', ')'}
  }

  /** A text whose character at `i` differs from the first character of `t` does not start with `t` there. */
  lemma FirstCharacterMismatch(s: string, t: string, i: nat)
    requires i < |s| && |t| > 0 && s[i] != t[0]
    ensures !StartsWithAt(s, t, i)
  {
  }

  /** No unsupported token starts at `i` when the character there cannot begin one. */
  lemma NoUnsupportedAt(s: string, st: Scan)
    requires st.index < |s| && !(s[st.index] in {'=', '.', '{', '}', '[', ']'})
    ensures FastFail(s, st).None?
  {
    forall k | 0 <= k < |UnsupportedParameterNamesSyntax|
      ensures !StartsWithAt(s, UnsupportedParameterNamesSyntax[k], st.index)
    {
      FirstCharacterMismatch(s, UnsupportedParameterNamesSyntax[k], st.index);
    }
  }

  /** Outside comments, an ordinary character is appended to the buffer. */
  lemma OrdinaryCharacter(s: string, st: Scan)
    requires st.index < |s| && st.Outside() && !Special(s[st.index])
    ensures ScanStep(s, st) == Next(st.(current := st.current + [s[st.index]], index := st.index + 1))
  {
    var i := st.index;
    NoUnsupportedAt(s, st);
    FirstCharacterMismatch(s, CommentStart, i);
    FirstCharacterMismatch(s, MultiLineCommentStart, i);
    assert AfterComments(s, st) == st;
    FirstCharacterMismatch(s, Separator, i);
    FirstCharacterMismatch(s, CloseParenthesis, i);
    assert FirstToken(true, [Separator, CloseParenthesis], s, i).None?;
  }

  /** Outside comments, a separator pushes the trimmed buffer and the scan goes on after it. */
  lemma SeparatorCharacter(s: string, st: Scan)
    requires st.index < |s| && st.Outside() && s[st.index] == ','
    ensures ScanStep(s, st) == Next(Flush(st).(index := st.index + 1))
  {
    var i := st.index;
    NoUnsupportedAt(s, st);
    FirstCharacterMismatch(s, CommentStart, i);
    FirstCharacterMismatch(s, MultiLineCommentStart, i);
    assert AfterComments(s, st) == st;
    assert s[i..i + 1] == Separator;
    assert FirstToken(true, [Separator, CloseParenthesis], s, i) == Some(Separator);
  }

  /** Outside comments, a closing parenthesis pushes the trimmed buffer and ends the scan with success. */
  lemma CloseCharacter(s: string, st: Scan)
    requires st.index < |s| && st.Outside() && s[st.index] == ')'
    ensures ScanStep(s, st) == Done(Parsed(Flush(st).parameter))
  {
    var i := st.index;
    NoUnsupportedAt(s, st);
    FirstCharacterMismatch(s, CommentStart, i);
    FirstCharacterMismatch(s, MultiLineCommentStart, i);
    assert AfterComments(s, st) == st;
    FirstCharacterMismatch(s, Separator, i);
    assert s[i..i + 1] == CloseParenthesis;
    assert FirstToken(true, [Separator, CloseParenthesis], s, i) == Some(CloseParenthesis);
  }

  /**
   * Inside a block comment the scan moves on, one character at a time, to
   * the first `*` `/` pair, and the outcome is that of a scan started,
   * outside comments, just after the pair. In the real scan no comment can
   * open at that position, whatever its character, since both comment
   * passes have already run; the requires on that character exclude the
   * cases where the scan started there would open one.
   */
  lemma {:induction false} BlockCommentBody(s: string, st: Scan, j: nat)
    requires st.inMultiLineComment && !st.inComment
    requires st.index <= j && j + 2 < |s| && StartsWithAt(s, MultiLineCommentEnd, j) && s[j + 2] != '/'
    requires forall k :: st.index <= k < j ==> !StartsWithAt(s, MultiLineCommentEnd, k)
    requires FastFail(s, st.(inMultiLineComment := false, index := j + 2)).None?
    ensures Run(s, st) == Run(s, st.(inMultiLineComment := false, index := j + 2))
    decreases j - st.index
  {
    var after := st.(inMultiLineComment := false, index := j + 2);
    FirstCharacterMismatch(s, CommentStart, j + 2);
    FirstCharacterMismatch(s, MultiLineCommentStart, j + 2);
    assert AfterComments(s, after) == after;
    assert FastFail(s, st).None?;
    assert SingleLineComments(s, st) == st;
    if st.index == j {
      assert MultiLineComments(s, st) == after;
      assert ScanStep(s, st) == ScanStep(s, after);
    } else {
      assert MultiLineComments(s, st) == st;
      assert ScanStep(s, st) == Next(st.(index := st.index + 1));
      BlockCommentBody(s, st.(index := st.index + 1), j);
    }
  }

  /**
   * A block comment outside any comment is skipped as a whole: scanning from
   * its opening `/` gives the same outcome as scanning from just after its
   * closing `*` `/`, provided the character that follows is not `/` and does
   * not start an unsupported token (that character is never fast-fail checked).
   */
  lemma BlockCommentSkipped(s: string, st: Scan, j: nat)
    requires st.Outside() && StartsWithAt(s, MultiLineCommentStart, st.index)
    requires st.index + 2 <= j && j + 2 < |s| && StartsWithAt(s, MultiLineCommentEnd, j) && s[j + 2] != '/'
    requires forall k :: st.index + 2 <= k < j ==> !StartsWithAt(s, MultiLineCommentEnd, k)
    requires FastFail(s, st.(index := j + 2)).None?
    ensures Run(s, st) == Run(s, st.(index := j + 2))
  {
    var i := st.index;
    var after := st.(index := j + 2);
    assert s[i] == '/' && s[i + 1] == '*' by { assert s[i..i + 2] == "/*"; }
    NoUnsupportedAt(s, st);
    assert !StartsWithAt(s, CommentStart, i) by { assert s[i..i + 2][1] == '*'; }
    assert SingleLineComments(s, st) == st;
    FirstCharacterMismatch(s, CommentStart, j + 2);
    FirstCharacterMismatch(s, MultiLineCommentStart, j + 2);
    assert AfterComments(s, after) == after;
    var inside := st.(inMultiLineComment := true, index := i + 2);
    if j == i + 2 {
      assert MultiLineComments(s, st) == after;
      assert ScanStep(s, st) == ScanStep(s, after);
    } else {
      assert MultiLineComments(s, st) == inside;
      assert ScanStep(s, st) == Next(inside.(index := i + 3));
      BlockCommentBody(s, inside.(index := i + 3), j);
    }
  }

  /** Inside a block comment the scan skips, unread, every position before the first `*` `/` pair. */
  lemma {:induction false} BlockCommentReachesEnd(s: string, st: Scan, j: nat)
    requires st.inMultiLineComment && !st.inComment
    requires st.index <= j < |s|
    requires forall k :: st.index <= k < j ==> !StartsWithAt(s, MultiLineCommentEnd, k)
    ensures Run(s, st) == Run(s, st.(index := j))
    decreases j - st.index
  {
    if st.index < j {
      assert FastFail(s, st).None?;
      assert SingleLineComments(s, st) == st;
      assert MultiLineComments(s, st) == st;
      assert ScanStep(s, st) == Next(st.(index := st.index + 1));
      BlockCommentReachesEnd(s, st.(index := st.index + 1), j);
    }
  }

  /**
   * The step that closes a block comment also handles the character after
   * the closing pair, as an ordinary one: unless it is a separator or `)`,
   * it is appended to the buffer without any check.
   */
  lemma ClosingStepBuffers(s: string, st: Scan)
    requires st.inMultiLineComment && !st.inComment
    requires StartsWithAt(s, MultiLineCommentEnd, st.index) && st.index + 2 < |s|
    requires s[st.index + 2] != ',' && s[st.index + 2] != ')'
    ensures Run(s, st) == Run(s, st.(inMultiLineComment := false, current := st.current + [s[st.index + 2]], index := st.index + 3))
  {
    var c := st.(inMultiLineComment := false, index := st.index + 2);
    assert FastFail(s, st).None?;
    assert SingleLineComments(s, st) == st;
    assert MultiLineComments(s, st) == c;
    FirstCharacterMismatch(s, Separator, c.index);
    FirstCharacterMismatch(s, CloseParenthesis, c.index);
    assert FirstToken(true, [Separator, CloseParenthesis], s, c.index).None?;
    assert ScanStep(s, st) == Next(c.(current := st.current + [s[c.index]], index := c.index + 1));
  }

  /**
   * The character right after a block comment is never checked for
   * unsupported syntax: unless it is a separator or `)`, it is appended to
   * the buffer, so in `(a/**/=1)` the `=` of a default value becomes part
   * of the name `a=1` instead of rejecting the list.
   */
  lemma CharacterAfterBlockCommentUnchecked(s: string, st: Scan, j: nat)
    requires st.Outside() && StartsWithAt(s, MultiLineCommentStart, st.index)
    requires st.index + 2 <= j && j + 2 < |s| && StartsWithAt(s, MultiLineCommentEnd, j)
    requires forall k :: st.index + 2 <= k < j ==> !StartsWithAt(s, MultiLineCommentEnd, k)
    requires s[j + 2] != ',' && s[j + 2] != ')'
    ensures Run(s, st) == Run(s, st.(current := st.current + [s[j + 2]], index := j + 3))
  {
    var i := st.index;
    if j == i + 2 {
      EmptyBlockCommentStep(s, st);
    } else {
      var inside := st.(inMultiLineComment := true, index := i + 3);
      BlockCommentRunsToEnd(s, inside, j);
      assert inside.(inMultiLineComment := false, current := inside.current + [s[j + 2]], index := j + 3) ==
             st.(current := st.current + [s[j + 2]], index := j + 3);
      BlockCommentOpens(s, st);
    }
  }

  /** A block comment opens, and the character right after `/` `*` is skipped unread unless a closing pair starts there. */
  lemma BlockCommentOpens(s: string, st: Scan)
    requires st.Outside() && StartsWithAt(s, MultiLineCommentStart, st.index)
    requires st.index + 2 < |s| && !StartsWithAt(s, MultiLineCommentEnd, st.index + 2)
    ensures Run(s, st) == Run(s, st.(inMultiLineComment := true, index := st.index + 3))
  {
    var i := st.index;
    assert s[i] == '/' && s[i + 1] == '*' by { assert s[i..i + 2] == "/*"; }
    NoUnsupportedAt(s, st);
    assert !StartsWithAt(s, CommentStart, i) by { assert s[i..i + 2][1] == '*'; }
    assert SingleLineComments(s, st) == st;
    var inside := st.(inMultiLineComment := true, index := i + 2);
    assert MultiLineComments(s, st) == inside;
    assert ScanStep(s, st) == Next(inside.(index := i + 3));
  }

  /** An empty block comment opens and closes in one step, which then handles the character after it. */
  lemma EmptyBlockCommentStep(s: string, st: Scan)
    requires st.Outside() && StartsWithAt(s, MultiLineCommentStart, st.index) && StartsWithAt(s, MultiLineCommentEnd, st.index + 2)
    requires st.index + 4 < |s| && s[st.index + 4] != ',' && s[st.index + 4] != ')'
    ensures Run(s, st) == Run(s, st.(current := st.current + [s[st.index + 4]], index := st.index + 5))
  {
    var i := st.index;
    assert s[i] == '/' && s[i + 1] == '*' by { assert s[i..i + 2] == "/*"; }
    NoUnsupportedAt(s, st);
    assert !StartsWithAt(s, CommentStart, i) by { assert s[i..i + 2][1] == '*'; }
    assert SingleLineComments(s, st) == st;
    var c := st.(index := i + 4);
    assert MultiLineComments(s, st) == c;
    FirstCharacterMismatch(s, Separator, c.index);
    FirstCharacterMismatch(s, CloseParenthesis, c.index);
    assert FirstToken(true, [Separator, CloseParenthesis], s, c.index).None?;
    assert ScanStep(s, st) == Next(c.(current := st.current + [s[c.index]], index := c.index + 1));
  }

  /**
   * Inside a block comment the scan skips, unread, every position before
   * the first `*` `/` pair; the step that reaches it closes the comment and
   * handles the character after it as in `ClosingStepBuffers`.
   */
  lemma {:induction false} BlockCommentRunsToEnd(s: string, st: Scan, j: nat)
    requires st.inMultiLineComment && !st.inComment
    requires st.index <= j && j + 2 < |s| && StartsWithAt(s, MultiLineCommentEnd, j)
    requires forall k :: st.index <= k < j ==> !StartsWithAt(s, MultiLineCommentEnd, k)
    requires s[j + 2] != ',' && s[j + 2] != ')'
    ensures Run(s, st) == Run(s, st.(inMultiLineComment := false, current := st.current + [s[j + 2]], index := j + 3))
    decreases j - st.index
  {
    if st.index == j {
      ClosingStepBuffers(s, st);
    } else {
      var next := st.(index := st.index + 1);
      assert FastFail(s, st).None?;
      assert SingleLineComments(s, st) == st;
      assert MultiLineComments(s, st) == st;
      assert ScanStep(s, st) == Next(next);
      BlockCommentRunsToEnd(s, next, j);
      assert next.(inMultiLineComment := false, current := next.current + [s[j + 2]], index := j + 3) ==
             st.(inMultiLineComment := false, current := st.current + [s[j + 2]], index := j + 3);
    }
  }

  /**
   * Inside a line comment the scan moves on, one character at a time, to
   * the first line feed, and the outcome is that of a scan started, outside
   * comments, just after it. In the real scan `//` cannot open at that
   * position, since the line-comment pass has already run; the requires on
   * that character exclude the cases where the scan started there would
   * open a comment.
   */
  lemma {:induction false} LineCommentBody(s: string, st: Scan, j: nat)
    requires st.inComment && !st.inMultiLineComment
    requires st.index <= j && j + 1 < |s| && s[j] == '\n' && s[j + 1] != '/'
    requires forall k :: st.index <= k < j ==> s[k] != '\n'
    requires FastFail(s, st.(inComment := false, index := j + 1)).None?
    ensures Run(s, st) == Run(s, st.(inComment := false, index := j + 1))
    decreases j - st.index
  {
    var after := st.(inComment := false, index := j + 1);
    FirstCharacterMismatch(s, CommentStart, j + 1);
    FirstCharacterMismatch(s, MultiLineCommentStart, j + 1);
    assert AfterComments(s, after) == after;
    assert FastFail(s, st).None?;
    if st.index == j {
      assert StartsWithAt(s, CommentEnd, j) by { assert s[j..j + 1] == [s[j]]; }
      assert SingleLineComments(s, st) == after;
      assert ScanStep(s, st) == ScanStep(s, after);
    } else {
      FirstCharacterMismatch(s, CommentEnd, st.index);
      assert SingleLineComments(s, st) == st;
      assert MultiLineComments(s, st) == st;
      assert ScanStep(s, st) == Next(st.(index := st.index + 1));
      LineCommentBody(s, st.(index := st.index + 1), j);
    }
  }

  /**
   * A line comment outside any comment is skipped as a whole: scanning from
   * its opening `/` gives the same outcome as scanning from just after the
   * line feed that ends it, provided the character that follows is not `/`
   * (a scan started there would open a comment) and does not start an
   * unsupported token (that character is never fast-fail checked). The character right after `//` is skipped unread
   * unless it is the line feed itself.
   */
  lemma LineCommentSkipped(s: string, st: Scan, j: nat)
    requires st.Outside() && StartsWithAt(s, CommentStart, st.index)
    requires st.index + 2 <= j && j + 1 < |s| && s[j] == '\n' && s[j + 1] != '/'
    requires forall k :: st.index + 2 <= k < j ==> s[k] != '\n'
    requires FastFail(s, st.(index := j + 1)).None?
    ensures Run(s, st) == Run(s, st.(index := j + 1))
  {
    var i := st.index;
    var after := st.(index := j + 1);
    assert s[i] == '/' && s[i + 1] == '/' by { assert s[i..i + 2] == "//"; }
    NoUnsupportedAt(s, st);
    FirstCharacterMismatch(s, CommentStart, j + 1);
    FirstCharacterMismatch(s, MultiLineCommentStart, j + 1);
    assert AfterComments(s, after) == after;
    var inside := st.(inComment := true, index := i + 2);
    if j == i + 2 {
      assert StartsWithAt(s, CommentEnd, j) by { assert s[j..j + 1] == [s[j]]; }
      assert SingleLineComments(s, st) == after;
      assert ScanStep(s, st) == ScanStep(s, after);
    } else {
      FirstCharacterMismatch(s, CommentEnd, i + 2);
      assert SingleLineComments(s, st) == inside;
      assert MultiLineComments(s, inside) == inside;
      assert ScanStep(s, st) == Next(inside.(index := i + 3));
      LineCommentBody(s, inside.(index := i + 3), j);
    }
  }

  /**
   * Inside a line comment the scan skips, unread, every position before the
   * first line feed; the step that reaches it closes the comment and handles
   * the character after it as in `LineClosingStepBuffers`.
   */
  lemma {:induction false} LineCommentRunsToEnd(s: string, st: Scan, j: nat)
    requires st.inComment && !st.inMultiLineComment
    requires st.index <= j && j + 1 < |s| && s[j] == '\n'
    requires forall k :: st.index <= k < j ==> s[k] != '\n'
    requires !StartsWithAt(s, MultiLineCommentStart, j + 1) && s[j + 1] != ',' && s[j + 1] != ')'
    ensures Run(s, st) == Run(s, st.(inComment := false, current := st.current + [s[j + 1]], index := j + 2))
    decreases j - st.index
  {
    if st.index == j {
      LineClosingStepBuffers(s, st);
    } else {
      var next := st.(index := st.index + 1);
      assert FastFail(s, st).None?;
      FirstCharacterMismatch(s, CommentEnd, st.index);
      assert SingleLineComments(s, st) == st;
      assert MultiLineComments(s, st) == st;
      assert ScanStep(s, st) == Next(next);
      LineCommentRunsToEnd(s, next, j);
      assert next.(inComment := false, current := next.current + [s[j + 1]], index := j + 2) ==
             st.(inComment := false, current := st.current + [s[j + 1]], index := j + 2);
    }
  }

  /**
   * The step that closes a line comment also handles the character after
   * the line feed: only `/` `*` can open a comment there (the block-comment
   * pass runs after the line-comment pass); anything else but a separator
   * or `)` is appended to the buffer without any check, `/` included.
   */
  lemma LineClosingStepBuffers(s: string, st: Scan)
    requires st.inComment && !st.inMultiLineComment
    requires st.index + 1 < |s| && s[st.index] == '\n' && !StartsWithAt(s, MultiLineCommentStart, st.index + 1)
    requires s[st.index + 1] != ',' && s[st.index + 1] != ')'
    ensures Run(s, st) == Run(s, st.(inComment := false, current := st.current + [s[st.index + 1]], index := st.index + 2))
  {
    var c := st.(inComment := false, index := st.index + 1);
    assert FastFail(s, st).None?;
    assert StartsWithAt(s, CommentEnd, st.index) by { assert s[st.index..st.index + 1] == [s[st.index]]; }
    assert SingleLineComments(s, st) == c;
    assert MultiLineComments(s, c) == c;
    FirstCharacterMismatch(s, Separator, c.index);
    FirstCharacterMismatch(s, CloseParenthesis, c.index);
    assert FirstToken(true, [Separator, CloseParenthesis], s, c.index).None?;
    assert ScanStep(s, st) == Next(c.(current := st.current + [s[c.index]], index := c.index + 1));
  }

  /**
   * The character right after the line feed that ends a line comment is
   * never checked: unless it starts `/` `*` or is a separator or `)`, it is
   * appended to the buffer, so a `//` there opens no comment.
   */
  lemma CharacterAfterLineCommentUnchecked(s: string, st: Scan, j: nat)
    requires st.Outside() && StartsWithAt(s, CommentStart, st.index)
    requires st.index + 2 <= j && j + 1 < |s| && s[j] == '\n'
    requires forall k :: st.index + 2 <= k < j ==> s[k] != '\n'
    requires !StartsWithAt(s, MultiLineCommentStart, j + 1) && s[j + 1] != ',' && s[j + 1] != ')'
    ensures Run(s, st) == Run(s, st.(current := st.current + [s[j + 1]], index := j + 2))
  {
    var i := st.index;
    if j == i + 2 {
      EmptyLineCommentStep(s, st);
    } else {
      var inside := st.(inComment := true, index := i + 3);
      LineCommentRunsToEnd(s, inside, j);
      assert inside.(inComment := false, current := inside.current + [s[j + 1]], index := j + 2) ==
             st.(current := st.current + [s[j + 1]], index := j + 2);
      LineCommentOpens(s, st);
    }
  }

  /** A line comment whose text is empty opens and closes in one step, which then handles the character after it. */
  lemma EmptyLineCommentStep(s: string, st: Scan)
    requires st.Outside() && StartsWithAt(s, CommentStart, st.index)
    requires st.index + 3 < |s| && s[st.index + 2] == '\n'
    requires !StartsWithAt(s, MultiLineCommentStart, st.index + 3) && s[st.index + 3] != ',' && s[st.index + 3] != ')'
    ensures Run(s, st) == Run(s, st.(current := st.current + [s[st.index + 3]], index := st.index + 4))
  {
    var i, j := st.index, st.index + 2;
    assert s[i] == '/' && s[i + 1] == '/' by { assert s[i..i + 2] == "//"; }
    NoUnsupportedAt(s, st);
    var c := st.(index := j + 1);
    assert StartsWithAt(s, CommentEnd, j) by { assert s[j..j + 1] == [s[j]]; }
    assert SingleLineComments(s, st) == c;
    assert MultiLineComments(s, c) == c;
    FirstCharacterMismatch(s, Separator, c.index);
    FirstCharacterMismatch(s, CloseParenthesis, c.index);
    assert FirstToken(true, [Separator, CloseParenthesis], s, c.index).None?;
    assert ScanStep(s, st) == Next(c.(current := st.current + [s[c.index]], index := c.index + 1));
  }

  /** A line comment opens, and the character right after `//` is skipped unread unless it is a line feed. */
  lemma LineCommentOpens(s: string, st: Scan)
    requires st.Outside() && StartsWithAt(s, CommentStart, st.index)
    requires st.index + 2 < |s| && s[st.index + 2] != '\n'
    ensures Run(s, st) == Run(s, st.(inComment := true, index := st.index + 3))
  {
    var i := st.index;
    assert s[i] == '/' && s[i + 1] == '/' by { assert s[i..i + 2] == "//"; }
    NoUnsupportedAt(s, st);
    var inside := st.(inComment := true, index := i + 2);
    FirstCharacterMismatch(s, CommentEnd, i + 2);
    assert SingleLineComments(s, st) == inside;
    assert MultiLineComments(s, inside) == inside;
    assert ScanStep(s, st) == Next(inside.(index := i + 3));
  }

  /** Outside comments, a `/` that opens no comment is kept as part of the name. */
  lemma LoneSlashKept(s: string, st: Scan)
    requires st.Outside() && st.index + 1 < |s| && s[st.index] == '/'
    requires s[st.index + 1] != '/' && s[st.index + 1] != '*'
    ensures Run(s, st) == Run(s, st.(current := st.current + ['/'], index := st.index + 1))
  {
    var i := st.index;
    NoUnsupportedAt(s, st);
    assert !StartsWithAt(s, CommentStart, i) by { assert s[i..i + 2][1] == s[i + 1]; }
    assert !StartsWithAt(s, MultiLineCommentStart, i) by { assert s[i..i + 2][1] == s[i + 1]; }
    assert SingleLineComments(s, st) == st;
    assert MultiLineComments(s, st) == st;
    FirstCharacterMismatch(s, Separator, i);
    FirstCharacterMismatch(s, CloseParenthesis, i);
    assert FirstToken(true, [Separator, CloseParenthesis], s, i).None?;
    assert ScanStep(s, st) == Next(st.(current := st.current + [s[i]], index := i + 1));
  }

  /** `function () {}` declares no parameters. */
  lemma ExampleEmpty(text: string)
    requires text == "function () {}"
    ensures Extract(Function(text)) == Parsed([])
  {
    assert text[..9] == "function ";
    StartsAfterFirstParenthesis(text, 9);
    assert Flush(Initial(10)).parameter == [] by { assert Trim("") == ""; }
    CloseRun(text, Initial(10));
  }

  /** An ordinary character outside comments is appended to the buffer and the run goes on after it. */
  lemma OrdinaryStep(s: string, st: Scan)
    requires st.index < |s| && st.Outside() && !Special(s[st.index])
    ensures Run(s, st) == Run(s, st.(current := st.current + [s[st.index]], index := st.index + 1))
  {
    OrdinaryCharacter(s, st);
  }

  /** Outside comments, a run of ordinary characters up to `j` is appended to the buffer as it stands. */
  lemma {:induction false} OrdinaryRun(s: string, st: Scan, j: nat, target: Scan)
    requires st.Outside() && st.index <= j <= |s|
    requires forall k :: st.index <= k < j ==> !Special(s[k])
    requires target == st.(current := st.current + s[st.index..j], index := j)
    ensures Run(s, st) == Run(s, target)
    decreases j - st.index
  {
    if st.index == j {
      assert target == st by {
        assert st.current + s[st.index..j] == st.current;
      }
    } else {
      var next := st.(current := st.current + [s[st.index]], index := st.index + 1);
      assert target == next.(current := next.current + s[next.index..j], index := j) by {
        assert s[st.index..j] == [s[st.index]] + s[st.index + 1..j];
      }
      OrdinaryStep(s, st);
      OrdinaryRun(s, next, j, target);
    }
  }

  /** A `,` outside comments pushes the trimmed buffer and the run goes on after it. */
  lemma SeparatorRun(s: string, st: Scan, next: Scan)
    requires st.index < |s| && st.Outside() && s[st.index] == ','
    requires next == Flush(st).(index := st.index + 1)
    ensures Run(s, st) == Run(s, next)
  {
    SeparatorCharacter(s, st);
  }

  /** A `)` outside comments ends the run with the collected names, the buffer flushed first. */
  lemma CloseRun(s: string, st: Scan)
    requires st.index < |s| && st.Outside() && s[st.index] == ')'
    ensures Run(s, st) == Parsed(Flush(st).parameter)
  {
    CloseCharacter(s, st);
  }

  /* ------------------------------------------------ the names, by an independent definition */

  /** `t.split(',')`: the pieces between separators, in order (an empty text is one empty piece). */
  function Split(t: string): (pieces: seq<string>)
    ensures |pieces| > 0
    decreases |t|
  {
    if t == [] then [""]
    else
      var rest := Split(t[1..]);
      if t[0] == ',' then [""] + rest else [[t[0]] + rest[0]] + rest[1..]
  }

  /** The pieces, trimmed, with the empty ones dropped. */
  function NonEmptyTrimmed(pieces: seq<string>): seq<string>
  {
    if pieces == [] then []
    else (if |Trim(pieces[0])| > 0 then [Trim(pieces[0])] else []) + NonEmptyTrimmed(pieces[1..])
  }

  /** Text without a separator joins the first piece of what follows it. */
  lemma {:induction false} SplitAfterPlain(c: string, t: string)
    requires ',' !in c
    ensures Split(c + t) == [c + Split(t)[0]] + Split(t)[1..]
  {
    if c == [] {
      assert c + t == t && c + Split(t)[0] == Split(t)[0];
    } else {
      assert (c + t)[0] == c[0] && (c + t)[1..] == c[1..] + t;
      assert ',' !in c[1..];
      SplitAfterPlain(c[1..], t);
      assert [c[0]] + (c[1..] + Split(t)[0]) == c + Split(t)[0];
    }
  }

  /** Text without a separator, then a separator: that text is the first piece. */
  lemma SplitAtSeparator(c: string, t: string)
    requires ',' !in c
    ensures Split(c + [','] + t) == [c] + Split(t)
  {
    assert c + [','] + t == c + ([','] + t);
    SplitAfterPlain(c, [','] + t);
    assert ([','] + t)[0] == ',' && ([','] + t)[1..] == t;
    assert Split([','] + t) == [""] + Split(t);
    assert c + "" == c;
  }

  /** Text without a separator is a single piece. */
  lemma SplitPlain(c: string)
    requires ',' !in c
    ensures Split(c) == [c]
  {
    assert c + [] == c;
    SplitAfterPlain(c, []);
  }

  /** Moving the first character of a slice onto the text before it. */
  lemma TextStep(c: string, s: string, i: nat, k: nat)
    requires i < k <= |s|
    ensures c + s[i..k] == c + [s[i]] + s[i + 1..k]
  {
    assert s[i..k] == [s[i]] + s[i + 1..k];
  }

  /** Trimming and dropping empty pieces distributes over concatenation. */
  lemma {:induction false} NonEmptyTrimmedAppend(a: seq<string>, b: seq<string>)
    ensures NonEmptyTrimmed(a + b) == NonEmptyTrimmed(a) + NonEmptyTrimmed(b)
  {
    if a == [] {
      assert a + b == b;
    } else {
      assert (a + b)[0] == a[0] && (a + b)[1..] == a[1..] + b;
      NonEmptyTrimmedAppend(a[1..], b);
    }
  }

  /** Flushing a buffer pushes exactly its piece, trimmed, unless that is empty. */
  lemma FlushedPiece(st: Scan)
    ensures Flush(st).parameter == st.parameter + NonEmptyTrimmed([st.current])
  {
    assert [st.current][1..] == [];
  }

  /**
   * Outside comments, up to a `)` at `k` with only separators and ordinary
   * characters before it, the scan succeeds with the names collected so far
   * followed by the trimmed, non-empty pieces between separators, in source
   * order.
   */
  lemma {:induction false} CommaSeparatedRun(s: string, st: Scan, k: nat)
    requires st.Outside() && st.index <= k < |s| && s[k] == ')'
    requires ',' !in st.current
    requires forall m :: st.index <= m < k ==> s[m] == ',' || !Special(s[m])
    ensures Run(s, st) == Parsed(st.parameter + NonEmptyTrimmed(Split(st.current + s[st.index..k])))
    decreases k - st.index
  {
    var i := st.index;
    if i == k {
      CloseRun(s, st);
      assert st.current + s[i..k] == st.current;
      ClosingPiece(st);
    } else if s[i] == ',' {
      var next := Flush(st).(index := i + 1);
      SeparatorRun(s, st, next);
      CommaSeparatedRun(s, next, k);
      assert next.current + s[i + 1..k] == s[i + 1..k];
      TextStep(st.current, s, i, k);
      SeparatorPiece(st, s[i + 1..k]);
    } else {
      var next := st.(current := st.current + [s[i]], index := i + 1);
      OrdinaryStep(s, st);
      CommaSeparatedRun(s, next, k);
      TextStep(st.current, s, i, k);
    }
  }

  /** At the closing `)`, the flushed names are those before it plus the last piece. */
  lemma ClosingPiece(st: Scan)
    requires ',' !in st.current
    ensures Flush(st).parameter == st.parameter + NonEmptyTrimmed(Split(st.current))
  {
    FlushedPiece(st);
    SplitPlain(st.current);
  }

  /** At a separator, the flushed names take the piece before it. */
  lemma SeparatorPiece(st: Scan, rest: string)
    requires ',' !in st.current
    ensures Flush(st).parameter + NonEmptyTrimmed(Split(rest))
         == st.parameter + NonEmptyTrimmed(Split(st.current + [','] + rest))
  {
    var piece, tail := NonEmptyTrimmed([st.current]), NonEmptyTrimmed(Split(rest));
    assert Flush(st).parameter == st.parameter + piece by { FlushedPiece(st); }
    assert NonEmptyTrimmed(Split(st.current + [','] + rest)) == piece + tail by {
      SplitAtSeparator(st.current, rest);
      NonEmptyTrimmedAppend([st.current], Split(rest));
    }
    assert st.parameter + piece + tail == st.parameter + (piece + tail);
  }

  /**
   * A parameter list in which every character before its first `)` is `,`
   * or none of `= . { } [ ] /` (so it holds no comment, no unsupported
   * syntax and no lone `.` or `/`) yields the pieces between its
   * separators, trimmed, empty ones dropped, in source order.
   */
  lemma ParameterListNames(text: string, k: nat)
    requires StartIndex(text) <= k < |text| && text[k] == ')'
    requires forall m :: StartIndex(text) <= m < k ==> text[m] == ',' || !Special(text[m])
    ensures Extract(Function(text)) == Parsed(NonEmptyTrimmed(Split(text[StartIndex(text)..k])))
  {
    var st := Initial(StartIndex(text));
    CommaSeparatedRun(text, st, k);
    assert st.current + text[st.index..k] == text[StartIndex(text)..k];
  }

  /** The buffer ` b` is pushed as `b`: its leading space is trimmed away. */
  lemma FlushedNames(st: Scan)
    requires st.current == " b"
    ensures Flush(st).parameter == st.parameter + ["b"]
  {
    assert !IsWhitespace('b') && IsWhitespace(' ');
    assert " b"[1..] == "b" && LeadingWhitespace("b") == 0;
    assert LeadingWhitespace(" b") == 1 && TrailingWhitespace("b") == 0;
    assert Trim(" b") == "b";
  }

  /** The first link of `function (a, b) {}`, from a fresh state at its `a`: `a` is buffered. */
  lemma ExampleTwoHead(text: string, st: Scan)
    requires st.Outside() && st.current == [] && st.parameter == [] && st.index + 5 <= |text|
    requires text[st.index] == 'a' && text[st.index + 1] == ',' && text[st.index + 2] == ' '
    requires text[st.index + 3] == 'b' && text[st.index + 4] == ')'
    ensures Run(text, st) == Parsed(["a", "b"])
  {
    var next := st.(current := "a", index := st.index + 1);
    assert st.(current := st.current + [text[st.index]], index := st.index + 1) == next;
    ExampleTwoAtSeparator(text, next);
    OrdinaryStep(text, st);
  }

  /** At the separator, with `a` buffered: the separator pushes `a`. */
  lemma ExampleTwoAtSeparator(text: string, st: Scan)
    requires st.Outside() && st.current == "a" && st.parameter == [] && st.index + 4 <= |text|
    requires text[st.index] == ',' && text[st.index + 1] == ' ' && text[st.index + 2] == 'b' && text[st.index + 3] == ')'
    ensures Run(text, st) == Parsed(["a", "b"])
  {
    var next := st.(current := "", parameter := ["a"], index := st.index + 1);
    UnspacedFlushed(st, ["a"]);
    assert Flush(st).(index := st.index + 1) == next;
    ExampleTwoTail(text, next);
    SeparatorRun(text, st, next);
  }

  /** After the separator, with `["a"]` collected and an empty buffer: ` b` is buffered. */
  lemma ExampleTwoTail(text: string, st: Scan)
    requires st.Outside() && st.current == [] && st.parameter == ["a"] && st.index + 3 <= |text|
    requires text[st.index] == ' ' && text[st.index + 1] == 'b' && text[st.index + 2] == ')'
    ensures Run(text, st) == Parsed(["a", "b"])
  {
    var i := st.index;
    var next := st.(current := " b", index := i + 2);
    assert text[i..i + 2] == " b";
    assert forall k :: i <= k < i + 2 ==> !Special(text[k]);
    assert st.(current := st.current + text[i..i + 2], index := i + 2) == next;
    ExampleTwoAtClose(text, next);
    OrdinaryRun(text, st, i + 2, next);
  }

  /** At the `)`, with `["a"]` collected and ` b` buffered: `b` is pushed and the names returned. */
  lemma ExampleTwoAtClose(text: string, st: Scan)
    requires st.Outside() && st.current == " b" && st.parameter == ["a"] && st.index < |text| && text[st.index] == ')'
    ensures Run(text, st) == Parsed(["a", "b"])
  {
    FlushedNames(st);
    assert st.parameter + ["b"] == ["a", "b"];
    CloseRun(text, st);
  }

  /** `function (a, b) {}`, or any text that starts alike, yields the names `a` and `b`, the space before `b` trimmed away. */
  lemma ExampleTwo(text: string)
    requires |text| >= 15 && text[..15] == "function (a, b)"
    ensures Extract(Function(text)) == Parsed(["a", "b"])
  {
    assert text[..9] == "function " && text[9] == '(';
    assert text[10] == 'a' && text[11] == ',' && text[12] == ' ' && text[13] == 'b' && text[14] == ')' by {
      assert text[10..15] == text[..15][10..15];
    }
    StartsAfterFirstParenthesis(text, 9);
    ExampleTwoHead(text, Initial(10));
  }

  /** A buffer that neither starts nor ends with whitespace is pushed unchanged when it is flushed. */
  lemma UnspacedFlushed(st: Scan, names: seq<string>)
    requires st.current != [] && !IsWhitespace(st.current[0]) && !IsWhitespace(st.current[|st.current| - 1])
    requires names == st.parameter + [st.current]
    ensures Flush(st).parameter == names
  {
    var t := st.current;
    assert LeadingWhitespace(t) == 0;
    assert t[0..] == t;
    assert TrailingWhitespace(t) == 0;
    assert Trim(t) == t;
  }

  /** A `)` outside comments, after a buffer that neither starts nor ends with whitespace, returns the collected names and that buffer. */
  lemma UnspacedClose(text: string, st: Scan, names: seq<string>)
    requires st.index < |text| && st.Outside() && text[st.index] == ')'
    requires st.current != [] && !IsWhitespace(st.current[0]) && !IsWhitespace(st.current[|st.current| - 1])
    requires names == st.parameter + [st.current]
    ensures Run(text, st) == Parsed(names)
  {
    UnspacedFlushed(st, names);
    CloseRun(text, st);
  }

  /**
   * A parameter list `(a/**/=1)`, whatever comes before its `(` and after
   * its `)`, yields the name `a=1`: the default value hidden behind a comment is not rejected.
   */
  lemma ExampleDefaultAfterComment(text: string, p: nat)
    requires p + 9 <= |text| && text[p] == '(' && '(' !in text[..p] && text[p + 1] == 'a'
    requires StartsWithAt(text, MultiLineCommentStart, p + 2) && StartsWithAt(text, MultiLineCommentEnd, p + 4)
    requires text[p + 6] == '=' && text[p + 7] == '1' && text[p + 8] == ')'
    ensures Extract(Function(text)) == Parsed(["a=1"])
  {
    StartsAfterFirstParenthesis(text, p);
    DefaultRun(text, p);
  }

  /** The scan of `(a/**/=1)` from just after its `(`. */
  lemma DefaultRun(text: string, p: nat)
    requires p + 9 <= |text| && text[p + 1] == 'a'
    requires StartsWithAt(text, MultiLineCommentStart, p + 2) && StartsWithAt(text, MultiLineCommentEnd, p + 4)
    requires text[p + 6] == '=' && text[p + 7] == '1' && text[p + 8] == ')'
    ensures Run(text, Initial(p + 1)) == Parsed(["a=1"])
  {
    DefaultRunFrom(text, Initial(p + 1));
  }

  /** The same scan from any fresh state at the `a`: the `a` is buffered. */
  lemma DefaultRunFrom(text: string, st: Scan)
    requires st.Outside() && st.current == [] && st.parameter == [] && st.index + 8 <= |text| && text[st.index] == 'a'
    requires StartsWithAt(text, MultiLineCommentStart, st.index + 1) && StartsWithAt(text, MultiLineCommentEnd, st.index + 3)
    requires text[st.index + 5] == '=' && text[st.index + 6] == '1' && text[st.index + 7] == ')'
    ensures Run(text, st) == Parsed(["a=1"])
  {
    var next := st.(current := "a", index := st.index + 1);
    assert st.(current := st.current + [text[st.index]], index := st.index + 1) == next;
    DefaultRunAtComment(text, next);
    OrdinaryStep(text, st);
  }

  /** At the comment: it is skipped, and the `=` after it is buffered unchecked. */
  lemma DefaultRunAtComment(text: string, st: Scan)
    requires st.Outside() && st.current == "a" && st.parameter == [] && st.index + 7 <= |text|
    requires StartsWithAt(text, MultiLineCommentStart, st.index) && StartsWithAt(text, MultiLineCommentEnd, st.index + 2)
    requires text[st.index + 4] == '=' && text[st.index + 5] == '1' && text[st.index + 6] == ')'
    ensures Run(text, st) == Parsed(["a=1"])
  {
    var next := st.(current := "a=", index := st.index + 5);
    assert st.(current := st.current + [text[st.index + 4]], index := st.index + 5) == next;
    DefaultRunAtValue(text, next);
    CharacterAfterBlockCommentUnchecked(text, st, st.index + 2);
  }

  /** At the `1`: it is buffered, and the `)` flushes `a=1`. */
  lemma DefaultRunAtValue(text: string, st: Scan)
    requires st.Outside() && st.current == "a=" && st.parameter == [] && st.index + 2 <= |text|
    requires text[st.index] == '1' && text[st.index + 1] == ')'
    ensures Run(text, st) == Parsed(["a=1"])
  {
    var next := st.(current := "a=1", index := st.index + 1);
    assert st.(current := st.current + [text[st.index]], index := st.index + 1) == next;
    UnspacedClose(text, next, ["a=1"]);
    OrdinaryStep(text, st);
  }

  /** `function (a/**/=1) {}` yields the name `a=1`. */
  lemma ExampleDefaultFunction(text: string)
    requires text == "function (a/**/=1) {}"
    ensures Extract(Function(text)) == Parsed(["a=1"])
  {
    assert text[..9] == "function " && text[9] == '(' && text[10] == 'a';
    assert StartsWithAt(text, MultiLineCommentStart, 11) by { assert text[11..13] == "/*"; }
    assert StartsWithAt(text, MultiLineCommentEnd, 13) by { assert text[13..15] == "*/"; }
    assert text[15] == '=' && text[16] == '1' && text[17] == ')';
    ExampleDefaultAfterComment(text, 9);
  }

  /**
   * A parameter list `(a//` line feed `//b)`, whatever comes before its `(`
   * and after its `)`, yields the name `a//b`: the `//` right after the line feed that ends a
   * line comment opens no comment.
   */
  lemma ExampleSlashesAfterLineComment(text: string, p: nat)
    requires p + 9 <= |text| && text[p] == '(' && '(' !in text[..p] && text[p + 1] == 'a'
    requires StartsWithAt(text, CommentStart, p + 2) && text[p + 4] == '\n'
    requires text[p + 5] == '/' && text[p + 6] == '/' && text[p + 7] == 'b' && text[p + 8] == ')'
    ensures Extract(Function(text)) == Parsed(["a//b"])
  {
    StartsAfterFirstParenthesis(text, p);
    SlashesRun(text, p);
  }

  /** The scan of `(a//` line feed `//b)` from just after its `(`. */
  lemma SlashesRun(text: string, p: nat)
    requires p + 9 <= |text| && text[p + 1] == 'a'
    requires StartsWithAt(text, CommentStart, p + 2) && text[p + 4] == '\n'
    requires text[p + 5] == '/' && text[p + 6] == '/' && text[p + 7] == 'b' && text[p + 8] == ')'
    ensures Run(text, Initial(p + 1)) == Parsed(["a//b"])
  {
    SlashesRunFrom(text, Initial(p + 1));
  }

  /** The same scan from any fresh state at the `a`: the `a` is buffered. */
  lemma SlashesRunFrom(text: string, st: Scan)
    requires st.Outside() && st.current == [] && st.parameter == [] && st.index + 8 <= |text| && text[st.index] == 'a'
    requires StartsWithAt(text, CommentStart, st.index + 1) && text[st.index + 3] == '\n'
    requires text[st.index + 4] == '/' && text[st.index + 5] == '/' && text[st.index + 6] == 'b' && text[st.index + 7] == ')'
    ensures Run(text, st) == Parsed(["a//b"])
  {
    var next := st.(current := "a", index := st.index + 1);
    assert st.(current := st.current + [text[st.index]], index := st.index + 1) == next;
    SlashesRunAtComment(text, next);
    OrdinaryStep(text, st);
  }

  /** At the comment: it is skipped, and the `/` after its line feed is buffered unchecked. */
  lemma SlashesRunAtComment(text: string, st: Scan)
    requires st.Outside() && st.current == "a" && st.parameter == [] && st.index + 7 <= |text|
    requires StartsWithAt(text, CommentStart, st.index) && text[st.index + 2] == '\n'
    requires text[st.index + 3] == '/' && text[st.index + 4] == '/' && text[st.index + 5] == 'b' && text[st.index + 6] == ')'
    ensures Run(text, st) == Parsed(["a//b"])
  {
    var next := st.(current := "a/", index := st.index + 4);
    assert st.(current := st.current + [text[st.index + 3]], index := st.index + 4) == next;
    assert !StartsWithAt(text, MultiLineCommentStart, st.index + 3) by { assert text[st.index + 3..st.index + 5][1] == '/'; }
    SlashesRunAtSlash(text, next);
    CharacterAfterLineCommentUnchecked(text, st, st.index + 2);
  }

  /** At the second `/`: it opens no comment, since a `b` follows, and is buffered. */
  lemma SlashesRunAtSlash(text: string, st: Scan)
    requires st.Outside() && st.current == "a/" && st.parameter == [] && st.index + 3 <= |text|
    requires text[st.index] == '/' && text[st.index + 1] == 'b' && text[st.index + 2] == ')'
    ensures Run(text, st) == Parsed(["a//b"])
  {
    var next := st.(current := "a//", index := st.index + 1);
    assert st.(current := st.current + ['/'], index := st.index + 1) == next;
    SlashesRunAtName(text, next);
    LoneSlashKept(text, st);
  }

  /** At the `b`: it is buffered, and the `)` flushes `a//b`. */
  lemma SlashesRunAtName(text: string, st: Scan)
    requires st.Outside() && st.current == "a//" && st.parameter == [] && st.index + 2 <= |text|
    requires text[st.index] == 'b' && text[st.index + 1] == ')'
    ensures Run(text, st) == Parsed(["a//b"])
  {
    var next := st.(current := "a//b", index := st.index + 1);
    assert st.(current := st.current + [text[st.index]], index := st.index + 1) == next;
    UnspacedClose(text, next, ["a//b"]);
    OrdinaryStep(text, st);
  }

  /** `function (a//` line feed `//b) {}` yields `["a//b"]`. */
  lemma ExampleSlashesFunction(text: string)
    requires text == "function (a//\n//b) {}"
    ensures Extract(Function(text)) == Parsed(["a//b"])
  {
    assert text[..9] == "function " && text[9] == '(' && text[10] == 'a';
    assert StartsWithAt(text, CommentStart, 11) by { assert text[11..13] == "//"; }
    assert text[13] == '\n' && text[14] == '/' && text[15] == '/' && text[16] == 'b' && text[17] == ')';
    ExampleSlashesAfterLineComment(text, 9);
  }

  /* ------------------------------------------------ the scan, in place */

  /** `nextToken`: try the tokens in array order and report the first that the text starts with at `index`. */
  method NextToken(isApplicable: bool, tokenArray: seq<string>, str: string, index: nat) returns (r: Option<string>)
    ensures r == FirstToken(isApplicable, tokenArray, str, index)
  {
    if !isApplicable {
      return None;
    }
    for i := 0 to |tokenArray|
      invariant FirstToken(true, tokenArray, str, index) == FirstToken(true, tokenArray[i..], str, index)
    {
      if StartsWithAt(str, tokenArray[i], index) {
        return Some(tokenArray[i]);
      }
      assert tokenArray[i..][1..] == tokenArray[i + 1..];
    }
    return None;
  }

  /** The `tokenizer` record that `extractParameterNames` updates as it scans. */
  class Scanner {
    const text: string
    var inComment: bool
    var inMultiLineComment: bool
    var index: nat
    var parameter: seq<string>
    var current: string

    /** The scan state the fields hold. */
    function Snapshot(): Scan
      reads this
    {
      Scan(index, inComment, inMultiLineComment, current, parameter)
    }

    constructor (text: string)
      ensures this.text == text && Snapshot() == Initial(0)
    {
      this.text := text;
      inComment := false;
      inMultiLineComment := false;
      index := 0;
      parameter := [];
      current := "";
    }

    method FastFailOnUnsupportedParameterNamesSyntax() returns (r: Option<string>)
      ensures r == FastFail(text, Snapshot())
    {
      var token := NextToken(!inMultiLineComment && !inComment, UnsupportedParameterNamesSyntax, text, index);
      r := if token.Some? then Some(UnsupportedPrefix + token.value) else None;
    }

    method TokenizeSingleLineComments()
      modifies this
      ensures Snapshot() == SingleLineComments(text, old(Snapshot()))
    {
      var start := NextToken(!inMultiLineComment && !inComment, [CommentStart], text, index);
      if start.Some? {
        inComment := true;
        index := index + |CommentStart|;
      }
      var end := NextToken(!inMultiLineComment && inComment, [CommentEnd], text, index);
      if end.Some? {
        inComment := false;
        index := index + |CommentEnd|;
      }
    }

    /** The separator callback: push the trimmed buffer when it is not empty, then clear the buffer. */
    method PushParameter()
      modifies this
      ensures Snapshot() == Flush(old(Snapshot()))
    {
      var parameterName := Trim(current);
      if |parameterName| > 0 {
        parameter := parameter + [parameterName];
      }
      current := "";
    }

    method TokenizeMultiLineComments()
      modifies this
      ensures Snapshot() == MultiLineComments(text, old(Snapshot()))
    {
      var start := NextToken(!inMultiLineComment && !inComment, [MultiLineCommentStart], text, index);
      if start.Some? {
        inMultiLineComment := true;
        index := index + |MultiLineCommentStart|;
      }
      var end := NextToken(inMultiLineComment && !inComment, [MultiLineCommentEnd], text, index);
      if end.Some? {
        inMultiLineComment := false;
        index := index + |MultiLineCommentEnd|;
      }
    }
  }

  /**
   * `extractParameterNames`: scan the text with a `Scanner` until the closing
   * parenthesis, an unsupported token, or the end of the text.
   */
  method ExtractParameterNames(func: Subject) returns (r: Extraction)
    ensures r == Extract(func)
    ensures func.NotAFunction? ==> r == Rejected("Not a function")
  {
    if func.NotAFunction? {
      return Rejected(NotAFunctionMessage);
    }
    ghost var outcome := Extract(func);
    var tokenizer := new Scanner(func.text);
    tokenizer.index := IndexOf(tokenizer.text, '(') + 1;
    assert tokenizer.Snapshot() == Initial(StartIndex(func.text));

    while tokenizer.index < |tokenizer.text|
      invariant tokenizer.text == func.text
      invariant Run(tokenizer.text, tokenizer.Snapshot()) == outcome
      decreases |tokenizer.text| - tokenizer.index
    {
      ghost var before := tokenizer.Snapshot();
      var unsupported := tokenizer.FastFailOnUnsupportedParameterNamesSyntax();
      if unsupported.Some? {
        assert ScanStep(tokenizer.text, before) == Done(Rejected(unsupported.value));
        return Rejected(unsupported.value);
      }

      tokenizer.TokenizeSingleLineComments();
      tokenizer.TokenizeMultiLineComments();
      ghost var afterComments := tokenizer.Snapshot();
      assert afterComments == AfterComments(tokenizer.text, before);
      assert afterComments.inComment == tokenizer.inComment && afterComments.inMultiLineComment == tokenizer.inMultiLineComment;
      assert afterComments.parameter == tokenizer.parameter && afterComments.index == tokenizer.index;

      var isSeparator := NextToken(
        !tokenizer.inMultiLineComment && !tokenizer.inComment,
        [Separator, CloseParenthesis], tokenizer.text, tokenizer.index);
      if isSeparator.Some? {
        tokenizer.PushParameter();
        if isSeparator.value == Separator {
          tokenizer.index := tokenizer.index + 1;
          assert ScanStep(tokenizer.text, before) == Next(tokenizer.Snapshot());
          continue;
        } else {
          assert ScanStep(tokenizer.text, before) == Done(Parsed(tokenizer.parameter));
          return Parsed(tokenizer.parameter);
        }
      }

      var isParameterName := !tokenizer.inComment && !tokenizer.inMultiLineComment;
      if isParameterName && tokenizer.index < |tokenizer.text| {
        tokenizer.current := tokenizer.current + [tokenizer.text[tokenizer.index]];
      }
      tokenizer.index := tokenizer.index + 1;
      assert tokenizer.Snapshot() == afterComments.(current := tokenizer.current, index := afterComments.index + 1);
      assert ScanStep(tokenizer.text, before) == Next(tokenizer.Snapshot());
    }
    return NoClose;
  }
}
