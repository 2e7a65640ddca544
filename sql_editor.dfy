/**
 * The SQL editor's guard: only a single SELECT without blocked keywords and
 * with as many `(` as `)` may run; the query that runs gets a LIMIT appended.
 */
module SqlEditor {
  import opened Base
  import Text
  import Seqs

  const BLOCKED_KEYWORDS: seq<string> := [
    "DROP", "DELETE", "TRUNCATE", "ALTER", "CREATE", "INSERT",
    "UPDATE", "GRANT", "REVOKE", "EXEC", "EXECUTE"
  ]

  /** `word` occurs in `s` at `i` with a `\b` boundary on both sides. */
  predicate WordAt(s: string, word: string, i: int) {
    && Text.OccursAt(s, word, i)
    && (i == 0 || !Text.IsWordChar(s[i - 1]))
    && (i + |word| == |s| || !Text.IsWordChar(s[i + |word|]))
  }

  /** `re.search(r"\b" + word + r"\b", s)` finds a match. */
  predicate ContainsWord(s: string, word: string) {
    exists i | 0 <= i <= |s| - |word| :: WordAt(s, word, i)
  }

  /** The position of the first keyword, in list order, that `s` contains as a whole word. */
  function FirstBlocked(s: string, keywords: seq<string>): (r: Option<nat>)
    ensures r.Some? ==> r.value < |keywords| && ContainsWord(s, keywords[r.value])
    ensures r.Some? ==> forall j | 0 <= j < r.value :: !ContainsWord(s, keywords[j])
    ensures r.None? <==> forall j | 0 <= j < |keywords| :: !ContainsWord(s, keywords[j])
  {
    if keywords == [] then None
    else if ContainsWord(s, keywords[0]) then Some(0)
    else match FirstBlocked(s, keywords[1..])
      case None => None
      case Some(j) => Some(j + 1)
  }

  predicate IsOpen(c: char) { c == '(' }

  predicate IsClose(c: char) { c == ')' }

  /** The text the checks after the emptiness test look at: `query.upper().strip()`. */
  function Normalized(query: string): string {
    Text.Strip(Text.Upper(query))
  }

  /** When the checks accept `query` against a keyword list: every check passes. */
  predicate Acceptable(query: string, keywords: seq<string>) {
    var q := Normalized(query);
    && Text.Strip(query) != ""
    && "SELECT" <= q
    && (forall k | k in keywords :: !ContainsWord(q, k))
    && Seqs.Count(q, IsOpen) == Seqs.Count(q, IsClose)
  }

  /**
   * The checks of `validate_query` against a keyword list. They run in the
   * order emptiness, SELECT prefix, keywords, parentheses, and the first one
   * that fails gives the message.
   */
  function Validate(query: string, keywords: seq<string>): (r: (bool, string))
    ensures r.0 ==> r.1 == "Query valida"
    ensures Text.Strip(query) == "" ==> r == (false, "Query vazia")
  {
    if query == "" || Text.Strip(query) == "" then (false, "Query vazia")
    else
      var q := Normalized(query);
      if !("SELECT" <= q) then (false, "Apenas queries SELECT sao permitidas")
      else match FirstBlocked(q, keywords)
        case Some(j) =>
          (false, "Keyword proibida detectada: " + keywords[j])
        case None =>
          if Seqs.Count(q, IsOpen) != Seqs.Count(q, IsClose) then (false, "Parenteses desbalanceados")
          else (true, "Query valida")
  }

  /**
   * After the emptiness test, the first check that fails gives the message:
   * the SELECT prefix, then the first blocked keyword in list order, then
   * the parentheses.
   */
  lemma ValidateMessages(query: string, keywords: seq<string>)
    requires Text.Strip(query) != ""
    ensures !("SELECT" <= Normalized(query)) ==>
      Validate(query, keywords) == (false, "Apenas queries SELECT sao permitidas")
    ensures "SELECT" <= Normalized(query) && FirstBlocked(Normalized(query), keywords).Some? ==>
      Validate(query, keywords) == (false, "Keyword proibida detectada: " + keywords[FirstBlocked(Normalized(query), keywords).value])
    ensures "SELECT" <= Normalized(query) && FirstBlocked(Normalized(query), keywords).None?
            && Seqs.Count(Normalized(query), IsOpen) != Seqs.Count(Normalized(query), IsClose) ==>
      Validate(query, keywords) == (false, "Parenteses desbalanceados")
  {
    assert query != "";
  }

  /** A query is accepted exactly when it passes all four checks. */
  lemma ValidateAcceptable(query: string, keywords: seq<string>)
    ensures Validate(query, keywords).0 <==> Acceptable(query, keywords)
  {
    var q := Normalized(query);
    var ok := Validate(query, keywords).0;
    if Text.Strip(query) == "" || !("SELECT" <= q) {
      assert !ok;
    } else if FirstBlocked(q, keywords).Some? {
      var j := FirstBlocked(q, keywords).value;
      assert !ok;
      assert keywords[j] in keywords && ContainsWord(q, keywords[j]);
    } else {
      assert ok <==> Seqs.Count(q, IsOpen) == Seqs.Count(q, IsClose);
      forall k | k in keywords ensures !ContainsWord(q, k) {
        var j :| 0 <= j < |keywords| && keywords[j] == k;
      }
    }
  }

  /** `validate_query` */
  function ValidateQuery(query: string): (bool, string) {
    Validate(query, BLOCKED_KEYWORDS)
  }

  /** A string strips to nothing exactly when all of it is whitespace. */
  lemma StripEmpty(s: string)
    ensures Text.Strip(s) == "" <==> forall i | 0 <= i < |s| :: Text.IsSpace(s[i])
  {
  }

  /** Upper-casing twice is upper-casing once. */
  lemma UpperIdempotent(s: string)
    ensures Text.Upper(Text.Upper(s)) == Text.Upper(s)
  {
    var u := Text.Upper(s);
    assert forall i | 0 <= i < |u| :: Text.UpperChar(u[i]) == u[i];
  }

  lemma UpperCharSpace(c: char)
    ensures Text.IsSpace(Text.UpperChar(c)) == Text.IsSpace(c)
  {
  }

  /** Upper-casing neither creates nor removes whitespace, so a blank query stays blank. */
  lemma UpperKeepsBlank(s: string)
    ensures Text.Strip(Text.Upper(s)) == "" <==> Text.Strip(s) == ""
  {
    var u := Text.Upper(s);
    forall i | 0 <= i < |s|
      ensures Text.IsSpace(u[i]) == Text.IsSpace(s[i])
    {
      UpperCharSpace(s[i]);
    }
    StripEmpty(s);
    StripEmpty(u);
  }

  /** The checks see a query only through its blankness and its normalised text. */
  lemma ValidateDependsOnNormalized(q1: string, q2: string, keywords: seq<string>)
    requires (Text.Strip(q1) == "") == (Text.Strip(q2) == "")
    requires Normalized(q1) == Normalized(q2)
    ensures Validate(q1, keywords) == Validate(q2, keywords)
  {
    if Text.Strip(q1) != "" {
      ValidateMessages(q1, keywords);
      ValidateMessages(q2, keywords);
      ValidateAcceptable(q1, keywords);
      ValidateAcceptable(q2, keywords);
    }
  }

  /** The checks ignore letter case: the upper-cased query gets the same verdict and message. */
  lemma ValidateIgnoresCase(query: string, keywords: seq<string>)
    ensures Validate(Text.Upper(query), keywords) == Validate(query, keywords)
  {
    UpperIdempotent(query);
    UpperKeepsBlank(query);
    ValidateDependsOnNormalized(Text.Upper(query), query, keywords);
  }

  /**
   * `query[..b]` is what is kept of `query`: after it comes a run of `;`
   * ending at `e`, the end of the last character that is not whitespace.
   */
  predicate TrimPoints(query: string, b: int, e: int) {
    && 0 <= b <= e <= |query|
    && (b == 0 || query[b - 1] != ';')
    && (forall i | b <= i < e :: query[i] == ';')
    && (e == 0 || !Text.IsSpace(query[e - 1]))
    && (forall i | e <= i < |query| :: Text.IsSpace(query[i]))
  }

  /**
   * The query that runs: trailing whitespace removed once, then every
   * trailing `;`, followed by a line `LIMIT n`; the kept text is the one
   * `TrimPoints` singles out.
   */
  function LimitedQuery(query: string, limit: int): (r: string)
    ensures r == Text.RStripChar(Text.RStrip(query), ';') + "\nLIMIT " + Text.IntToString(limit)
    ensures exists b, e :: TrimPoints(query, b, e) && r == query[..b] + "\nLIMIT " + Text.IntToString(limit)
  {
    var stripped := Text.RStrip(query);
    var body := Text.RStripChar(stripped, ';');
    assert query[..|stripped|] == stripped;
    assert query[..|body|] == body;
    assert TrimPoints(query, |body|, |stripped|);
    body + "\nLIMIT " + Text.IntToString(limit)
  }

  /**
   * Whitespace is stripped only once, before the `;`: whitespace between two
   * trailing `;` stays, and so does whitespace before a last `;`.
   */
  lemma LimitedQueryStripsOnce()
    ensures LimitedQuery("SELECT 1; ;", 5) == "SELECT 1; " + "\nLIMIT " + Text.IntToString(5)
    ensures LimitedQuery("x ;", 5) == "x " + "\nLIMIT " + Text.IntToString(5)
  {
    LimitedQuerySplit("SELECT 1; ;", 10, 11, 5);
    LimitedQuerySplit("x ;", 2, 3, 5);
  }

  /** The LIMIT line follows exactly the text the two split points single out, so they are unique. */
  lemma {:induction false} LimitedQuerySplit(query: string, b: nat, e: nat, limit: int)
    requires TrimPoints(query, b, e)
    ensures LimitedQuery(query, limit) == query[..b] + "\nLIMIT " + Text.IntToString(limit)
  {
    var stripped := Text.RStrip(query);
    var body := Text.RStripChar(stripped, ';');
    RStripAt(query, e);
    assert stripped == query[..e];
    RStripCharAt(stripped, b);
    assert body == query[..b];
  }

  /** `rstrip()` stops at the last character that is not whitespace. */
  lemma {:induction false} RStripAt(s: string, e: nat)
    requires e <= |s|
    requires e == 0 || !Text.IsSpace(s[e - 1])
    requires forall i | e <= i < |s| :: Text.IsSpace(s[i])
    ensures Text.RStrip(s) == s[..e]
    decreases |s|
  {
    if |s| > e {
      assert s[..|s| - 1][..e] == s[..e];
      RStripAt(s[..|s| - 1], e);
    } else {
      assert s[..e] == s;
    }
  }

  /** `rstrip(c)` stops at the last character that is not `c`. */
  lemma {:induction false} RStripCharAt(s: string, b: nat)
    requires b <= |s|
    requires b == 0 || s[b - 1] != ';'
    requires forall i | b <= i < |s| :: s[i] == ';'
    ensures Text.RStripChar(s, ';') == s[..b]
    decreases |s|
  {
    if |s| > b {
      assert s[..|s| - 1][..b] == s[..b];
      RStripCharAt(s[..|s| - 1], b);
    } else {
      assert s[..b] == s;
    }
  }

  /** A query that already ends in something other than whitespace or `;` runs unchanged apart from the LIMIT line. */
  lemma LimitedQueryKeepsCleanQuery(query: string, limit: int)
    requires query != [] && !Text.IsSpace(query[|query| - 1]) && query[|query| - 1] != ';'
    ensures LimitedQuery(query, limit) == query + "\nLIMIT " + Text.IntToString(limit)
  {
    assert Text.RStrip(query) == query;
    assert Text.RStripChar(query, ';') == query;
  }
}
