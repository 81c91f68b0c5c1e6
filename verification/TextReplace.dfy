/** The find-and-replace scan that substitutes "{{value}}" in command bodies and rewrites
    error texts: one loop over std::string::find and std::string::replace. */
module TextReplace {
  import opened Domain

  const VALUE_TOKEN := "{{value}}"

  const REDACTED := "[redacted]"

  predicate OccursAt(s: string, token: string, p: nat) {
    p + |token| <= |s| && forall k :: 0 <= k < |token| ==> s[p + k] == token[k]
  }

  ghost predicate Occurs(s: string, token: string) {
    exists p: nat :: OccursAt(s, token, p)
  }

  ghost predicate FirstFrom(s: string, token: string, pos: nat, p: nat) {
    pos <= p && OccursAt(s, token, p) && forall q: nat :: pos <= q < p ==> !OccursAt(s, token, q)
  }

  lemma {:induction false} SomeFirst(s: string, token: string, pos: nat, n: nat)
    requires pos <= n && OccursAt(s, token, n)
    ensures exists p: nat :: FirstFrom(s, token, pos, p)
    decreases n
  {
    if q: nat :| pos <= q < n && OccursAt(s, token, q) {
      SomeFirst(s, token, pos, q);
    } else {
      assert FirstFrom(s, token, pos, n);
    }
  }

  lemma NoneFrom(s: string, token: string, pos: nat)
    requires !exists p: nat :: FirstFrom(s, token, pos, p)
    ensures forall p: nat :: pos <= p ==> !OccursAt(s, token, p)
  {
    forall p: nat | pos <= p
      ensures !OccursAt(s, token, p)
    {
      if OccursAt(s, token, p) {
        SomeFirst(s, token, pos, p);
      }
    }
  }

  /** The first occurrence at or after pos. */
  ghost function Find(s: string, token: string, pos: nat): (found: Option<nat>)
    requires pos <= |s|
    ensures found.Some? ==> pos <= found.value && OccursAt(s, token, found.value)
    ensures forall p: nat :: pos <= p && (found.Some? ==> p < found.value) ==> !OccursAt(s, token, p)
  {
    if exists p: nat :: FirstFrom(s, token, pos, p) then
      var p: nat :| FirstFrom(s, token, pos, p);
      Some(p)
    else
      NoneFrom(s, token, pos);
      None
  }

  /** std::string::find. */
  method FindNext(s: string, token: string, pos: nat) returns (found: Option<nat>)
    requires pos <= |s|
    ensures found == Find(s, token, pos)
  {
    for p := pos to |s| + 1
      invariant forall q: nat :: pos <= q < p ==> !OccursAt(s, token, q)
    {
      if OccursAt(s, token, p) {
        return Some(p);
      }
    }
    return None;
  }

  /** A text cut at occurrences of a token: the parts between them. */
  datatype Pieces = Last(text: string) | Piece(text: string, rest: Pieces)

  function Glue(pieces: Pieces, glue: string): string {
    match pieces
    case Last(text) => text
    case Piece(text, rest) => text + (glue + Glue(rest, glue))
  }

  /** The cuts are the leftmost, non-overlapping occurrences. */
  ghost predicate Leftmost(pieces: Pieces, token: string) {
    match pieces
    case Last(text) => !Occurs(text, token)
    case Piece(text, rest) => FirstFrom(Glue(pieces, token), token, 0, |text|) && Leftmost(rest, token)
  }

  ghost predicate NoPieceHolds(pieces: Pieces, token: string) {
    !Occurs(pieces.text, token) && (pieces.Piece? ==> NoPieceHolds(pieces.rest, token))
  }

  /** The text from pos on, cut at the occurrences a scan from left to right finds. */
  ghost function Cut(s: string, pos: nat, token: string): Pieces
    requires token != "" && pos <= |s|
    decreases |s| - pos
  {
    var found := Find(s, token, pos);
    if found.None? then Last(s[pos..]) else Piece(s[pos..found.value], Cut(s, found.value + |token|, token))
  }

  /** The text from pos on, with every such occurrence replaced. */
  ghost function Replaced(s: string, pos: nat, token: string, text: string): string
    requires token != "" && pos <= |s|
    decreases |s| - pos
  {
    var found := Find(s, token, pos);
    if found.None? then s[pos..] else s[pos..found.value] + (text + Replaced(s, found.value + |token|, token, text))
  }

  /** Replacing is cutting at the token and gluing with the text. */
  lemma {:induction false} ReplacedIsCutAndGlued(s: string, pos: nat, token: string, text: string)
    requires token != "" && pos <= |s|
    ensures Replaced(s, pos, token, text) == Glue(Cut(s, pos, token), text)
    decreases |s| - pos
  {
    var found := Find(s, token, pos);
    if found.Some? {
      ReplacedIsCutAndGlued(s, found.value + |token|, token, text);
    }
  }

  /** Gluing with the token itself gives the text back, the cuts are the leftmost ones,
      and no piece holds an occurrence. */
  lemma CutIsExact(s: string, pos: nat, token: string)
    requires token != "" && pos <= |s|
    ensures Glue(Cut(s, pos, token), token) == s[pos..]
    ensures Leftmost(Cut(s, pos, token), token) && NoPieceHolds(Cut(s, pos, token), token)
  {
    CutGivesTextBack(s, pos, token);
    CutIsLeftmost(s, pos, token);
    CutLeavesNone(s, pos, token);
  }

  lemma {:induction false} CutGivesTextBack(s: string, pos: nat, token: string)
    requires token != "" && pos <= |s|
    ensures Glue(Cut(s, pos, token), token) == s[pos..]
    decreases |s| - pos
  {
    var found := Find(s, token, pos);
    if found.None? {
      GlueUncut(s, pos, token);
    } else {
      CutGivesTextBack(s, found.value + |token|, token);
      GlueCut(s, pos, token, found.value);
    }
  }

  lemma {:induction false} CutIsLeftmost(s: string, pos: nat, token: string)
    requires token != "" && pos <= |s|
    ensures Leftmost(Cut(s, pos, token), token)
    decreases |s| - pos
  {
    var found := Find(s, token, pos);
    if found.None? {
      LeftmostUncut(s, pos, token);
    } else {
      CutIsLeftmost(s, found.value + |token|, token);
      LeftmostCut(s, pos, token, found.value);
    }
  }

  lemma LeftmostUncut(s: string, pos: nat, token: string)
    requires token != "" && pos <= |s| && Find(s, token, pos).None?
    ensures Leftmost(Cut(s, pos, token), token)
  {
    NoneInSuffix(s, pos, token);
  }

  lemma LeftmostCut(s: string, pos: nat, token: string, p: nat)
    requires token != "" && pos <= |s| && Find(s, token, pos) == Some(p)
    requires Leftmost(Cut(s, p + |token|, token), token)
    ensures Leftmost(Cut(s, pos, token), token)
  {
    CutGivesTextBack(s, pos, token);
    FirstInSuffix(s, pos, token, p);
    CutStep(s, pos, token, p);
    LeftmostStep(Cut(s, pos, token), s[pos..p], Cut(s, p + |token|, token), token, s[pos..]);
  }

  lemma CutStep(s: string, pos: nat, token: string, p: nat)
    requires token != "" && pos <= |s| && Find(s, token, pos) == Some(p)
    ensures Cut(s, pos, token) == Piece(s[pos..p], Cut(s, p + |token|, token)) && |s[pos..p]| == p - pos
  {
  }

  lemma LeftmostStep(pieces: Pieces, text: string, rest: Pieces, token: string, whole: string)
    requires pieces == Piece(text, rest) && Leftmost(rest, token)
    requires Glue(pieces, token) == whole && FirstFrom(whole, token, 0, |text|)
    ensures Leftmost(pieces, token)
  {
  }

  lemma FirstInSuffix(s: string, pos: nat, token: string, p: nat)
    requires pos <= |s| && Find(s, token, pos) == Some(p)
    ensures FirstFrom(s[pos..], token, 0, p - pos)
  {
    SameSlice(s, pos);
    forall q: nat
      ensures OccursAt(s[pos..], token, q) <==> OccursAt(s, token, pos + q)
    {
      OccurrenceInSlice(s, pos, |s|, token, q);
    }
  }

  lemma {:induction false} CutLeavesNone(s: string, pos: nat, token: string)
    requires token != "" && pos <= |s|
    ensures NoPieceHolds(Cut(s, pos, token), token)
    decreases |s| - pos
  {
    var found := Find(s, token, pos);
    if found.None? {
      NoneInSuffix(s, pos, token);
    } else {
      CutLeavesNone(s, found.value + |token|, token);
      NoneInSlice(s, pos, found.value, token);
    }
  }

  lemma GlueUncut(s: string, pos: nat, token: string)
    requires token != "" && pos <= |s| && Find(s, token, pos).None?
    ensures Glue(Cut(s, pos, token), token) == s[pos..]
  {
  }

  lemma GlueCut(s: string, pos: nat, token: string, p: nat)
    requires token != "" && pos <= |s| && Find(s, token, pos) == Some(p)
    requires Glue(Cut(s, p + |token|, token), token) == s[p + |token|..]
    ensures Glue(Cut(s, pos, token), token) == s[pos..]
  {
    CutAround(s, pos, p, token, Glue(Cut(s, p + |token|, token), token));
  }

  lemma CutAround(s: string, pos: nat, p: nat, token: string, rest: string)
    requires pos <= p && OccursAt(s, token, p) && rest == s[p + |token|..]
    ensures s[pos..p] + (token + rest) == s[pos..]
  {
    assert s[p..p + |token|] == token;
  }

  lemma SameSlice(s: string, pos: nat)
    requires pos <= |s|
    ensures s[pos..][0..] == s[pos..] && s[pos..|s|] == s[pos..]
  {
  }

  lemma NoneInSuffix(s: string, pos: nat, token: string)
    requires token != "" && pos <= |s| && Find(s, token, pos).None?
    ensures !Occurs(s[pos..], token)
  {
    SameSlice(s, pos);
    NoneInSlice(s, pos, |s|, token);
  }

  /** The occurrences in a slice are those of the text that fit into it. */
  lemma OccurrenceInSlice(s: string, lo: nat, hi: nat, token: string, q: nat)
    requires lo <= hi <= |s|
    ensures OccursAt(s[lo..hi], token, q) <==> lo + q + |token| <= hi && OccursAt(s, token, lo + q)
  {
  }

  /** Where no occurrence starts, a slice holds none. */
  lemma NoneInSlice(s: string, lo: nat, hi: nat, token: string)
    requires token != "" && lo <= hi <= |s|
    requires forall p: nat :: lo <= p < hi ==> !OccursAt(s, token, p)
    ensures !Occurs(s[lo..hi], token)
  {
    forall q: nat
      ensures !OccursAt(s[lo..hi], token, q)
    {
      OccurrenceInSlice(s, lo, hi, token, q);
    }
  }

  // ----- the loop of the source -----

  /** The scan restarts after what it wrote, and it ends. At any time the text is what
      is done, up to pos, and the pieces that are left, still glued with the token. */
  method ReplaceAll(body: string, token: string, text: string) returns (out: string)
    requires token != ""
    ensures out == Replaced(body, 0, token, text)
  {
    CutIsExact(body, 0, token);
    ReplacedIsCutAndGlued(body, 0, token, text);
    out := ReplaceInPieces(body, token, text, Cut(body, 0, token));
  }

  method ReplaceInPieces(body: string, token: string, text: string, ghost pieces: Pieces) returns (out: string)
    requires token != "" && body == Glue(pieces, token) && Leftmost(pieces, token)
    ensures out == Glue(pieces, text)
  {
    out := body;
    var pos: nat := 0;
    ghost var done, left := "", pieces;
    NothingDone(pieces, token, text);
    var found := FindFrom(out, token, pos, done, left);
    while found.Some?
      invariant out == done + Glue(left, token) && Leftmost(left, token) && pos == |done|
      invariant done + Glue(left, text) == Glue(pieces, text)
      invariant found == if left.Last? then None else Some(pos + |left.text|)
      decreases left
    {
      OneMoreDone(done, left, token, text);
      out := Overwrite(out, found.value, |token|, text, done + left.text, token, Glue(left.rest, token));
      pos := found.value + |text|;
      done, left := done + left.text + text, left.rest;
      found := FindFrom(out, token, pos, done, left);
    }
  }

  lemma NothingDone(pieces: Pieces, token: string, text: string)
    ensures "" + Glue(pieces, token) == Glue(pieces, token) && "" + Glue(pieces, text) == Glue(pieces, text)
  {
  }

  lemma OneMoreDone(done: string, left: Pieces, token: string, text: string)
    requires left.Piece?
    ensures done + Glue(left, token) == done + left.text + token + Glue(left.rest, token)
    ensures done + Glue(left, text) == done + left.text + text + Glue(left.rest, text)
  {
  }

  method FindFrom(out: string, token: string, pos: nat, ghost done: string, ghost left: Pieces)
    returns (found: Option<nat>)
    requires out == done + Glue(left, token) && pos == |done| && Leftmost(left, token)
    ensures found == if left.Last? then None else Some(pos + |left.text|)
  {
    found := FindNext(out, token, pos);
    if left.Last? {
      NoneAfter(done, left.text, token);
    } else {
      FirstAfter(done, Glue(left, token), token, |left.text|);
    }
  }

  lemma NoneAfter(done: string, rest: string, token: string)
    requires !Occurs(rest, token)
    ensures Find(done + rest, token, |done|) == None
  {
    var found := Find(done + rest, token, |done|);
    if found.Some? {
      OccurrenceAfter(done, rest, token, found.value - |done|);
    }
  }

  lemma FirstAfter(done: string, rest: string, token: string, n: nat)
    requires FirstFrom(rest, token, 0, n)
    ensures Find(done + rest, token, |done|) == Some(|done| + n)
  {
    var found := Find(done + rest, token, |done|);
    OccurrenceAfter(done, rest, token, n);
    assert found.Some? && found.value <= |done| + n;
    OccurrenceAfter(done, rest, token, found.value - |done|);
  }

  lemma OccurrenceAfter(done: string, rest: string, token: string, q: nat)
    ensures OccursAt(done + rest, token, |done| + q) <==> OccursAt(rest, token, q)
  {
    DropDone(done, rest);
    OccurrenceInSlice(done + rest, |done|, |done + rest|, token, q);
  }

  lemma DropDone(done: string, rest: string)
    ensures (done + rest)[|done|..|done + rest|] == rest
  {
  }

  /** std::string::replace on the n characters from p. */
  method Overwrite(s: string, p: nat, n: nat, text: string, ghost before: string, ghost old': string,
                   ghost after: string) returns (out: string)
    requires s == before + old' + after && |before| == p && |old'| == n
    ensures out == before + text + after
  {
    out := s[..p] + text + s[p + n..];
    assert s[..p] == before && s[p + n..] == after;
  }

  // ----- when one scan is enough, for any token and text -----

  /** One of the texts starts with the other. */
  predicate Comparable(a: string, b: string) {
    forall k :: 0 <= k < |a| && k < |b| ==> a[k] == b[k]
  }

  /** The text can begin an occurrence of the token, or hold one. */
  predicate BeginsIn(token: string, text: string) {
    exists o :: 0 <= o < |text| && Comparable(token, text[o..])
  }

  /** The token's first m characters, followed by the token, hold no earlier token. */
  predicate FirstAfterOwnStart(token: string, m: nat)
    requires m <= |token|
  {
    forall p: nat :: p < m ==> !OccursAt(token[..m] + token, token, p)
  }

  /** What precedes an occurrence can run on into the text and form a token. */
  predicate EndsInto(token: string, text: string) {
    exists m :: 0 < m < |token| && Comparable(token[m..], text) && FirstAfterOwnStart(token, m)
  }

  /** When some replacement leaves or forms the token anew. */
  predicate Survives(token: string, text: string) {
    BeginsIn(token, text) || EndsInto(token, text)
  }

  lemma OverlapIn(left: string, text: string, right: string, token: string, p: nat)
    requires OccursAt(left + (text + right), token, p)
    ensures |left| <= p < |left| + |text| ==> Comparable(token, text[p - |left|..])
    ensures p < |left| < p + |token| ==>
      left[p..] == token[..|left| - p] && Comparable(token[|left| - p..], text)
  {
    var s := left + (text + right);
    if |left| <= p < |left| + |text| {
      var tail := text[p - |left|..];
      forall k | 0 <= k < |token| && k < |tail|
        ensures token[k] == tail[k]
      {
        assert s[p + k] == text[p - |left| + k];
      }
    }
    if p < |left| < p + |token| {
      var m := |left| - p;
      forall k | 0 <= k < m
        ensures left[p..][k] == token[..m][k]
      {
        assert s[p + k] == left[p + k];
      }
      forall k | 0 <= k < |token[m..]| && k < |text|
        ensures token[m..][k] == text[k]
      {
        assert s[p + (m + k)] == text[k];
      }
    }
  }

  /** A token found first at q leaves no room for an earlier one in what precedes it. */
  lemma FirstFoundAfterStart(s: string, pos: nat, token: string, q: nat, m: nat)
    requires pos <= |s| && Find(s, token, pos) == Some(q) && 0 < m < |token| && m <= q - pos
    requires s[q - m..q] == token[..m]
    ensures FirstAfterOwnStart(token, m)
  {
    forall p: nat | p < m
      ensures !OccursAt(token[..m] + token, token, p)
    {
      if OccursAt(token[..m] + token, token, p) {
        MovedOccurrence(s, token, q, m, p);
      }
    }
  }

  lemma MovedOccurrence(s: string, token: string, q: nat, m: nat, p: nat)
    requires m <= |token| && m <= q && OccursAt(s, token, q) && s[q - m..q] == token[..m]
    requires p <= m && OccursAt(token[..m] + token, token, p)
    ensures OccursAt(s, token, q - m + p)
  {
    forall k | 0 <= k < |token|
      ensures s[q - m + p + k] == token[k]
    {
      assert (token[..m] + token)[p + k] == token[k];
      if p + k < m {
        assert s[q - m..q][p + k] == s[q - m + p + k];
      } else {
        assert s[q + (p + k - m)] == token[p + k - m];
      }
    }
  }

  lemma NoneAround(s: string, pos: nat, token: string, text: string, right: string, q: nat)
    requires token != "" && pos <= |s| && Find(s, token, pos) == Some(q)
    requires !Survives(token, text) && !Occurs(right, token)
    ensures !Occurs(s[pos..q] + (text + right), token)
  {
    var left := s[pos..q];
    NoneInSlice(s, pos, q, token);
    forall p: nat
      ensures !OccursAt(left + (text + right), token, p)
    {
      if OccursAt(left + (text + right), token, p) {
        OccurrenceWithin(left, text, right, token, p);
        OverlapIn(left, text, right, token, p);
        if p < |left| < p + |token| {
          EndOfSlice(s, pos, q, p);
          FirstFoundAfterStart(s, pos, token, q, |left| - p);
        }
      }
    }
  }

  lemma EndOfSlice(s: string, lo: nat, hi: nat, a: nat)
    requires lo <= hi <= |s| && a <= hi - lo
    ensures s[lo..hi][a..] == s[lo + a..hi]
  {
  }

  lemma {:induction false} NothingSurvives(s: string, pos: nat, token: string, text: string)
    requires token != "" && pos <= |s| && !Survives(token, text)
    ensures !Occurs(Replaced(s, pos, token, text), token)
    decreases |s| - pos
  {
    var found := Find(s, token, pos);
    if found.None? {
      NoneInSuffix(s, pos, token);
    } else {
      NothingSurvives(s, found.value + |token|, token, text);
      NoneAround(s, pos, token, text, Replaced(s, found.value + |token|, token, text), found.value);
    }
  }

  lemma NoneInShortRest(s: string, token: string, pos: nat)
    requires pos <= |s| < pos + |token|
    ensures Find(s, token, pos) == None
  {
  }

  /** A token, with something shorter than the token behind it. */
  lemma ReplacedAtStart(token: string, text: string, tail: string, x: string)
    requires token != "" && |tail| < |token| && Find(x + token + tail, token, 0) == Some(|x|)
    ensures Replaced(x + token + tail, 0, token, text) == x + (text + tail)
  {
    var s := x + token + tail;
    NoneInShortRest(s, token, |x| + |token|);
    assert s[0..|x|] == x && s[|x| + |token|..] == tail;
  }

  /** What is missing of the token after its first n characters. */
  function Missing(token: string, n: nat): string {
    if n < |token| then token[n..] else ""
  }

  lemma BeginningCompleted(token: string, text: string, o: nat)
    requires o < |text| && Comparable(token, text[o..])
    ensures OccursAt("" + (text + Missing(token, |text| - o)), token, o)
  {
    var fits, tail := |text| - o, Missing(token, |text| - o);
    var out := "" + (text + tail);
    forall k | 0 <= k < |token|
      ensures out[o + k] == token[k]
    {
      assert k < fits ==> out[o + k] == text[o..][k];
      assert k >= fits ==> out[o + k] == tail[k - fits];
    }
  }

  lemma Exhibit(s: string, token: string, text: string, out: string, o: nat)
    requires token != "" && Replaced(s, 0, token, text) == out && OccursAt(out, token, o)
    ensures Occurs(Replaced(s, 0, token, text), token)
  {
  }

  lemma BeginningSurvives(token: string, text: string, o: nat) returns (s: string)
    requires token != "" && o < |text| && Comparable(token, text[o..])
    ensures Occurs(Replaced(s, 0, token, text), token)
  {
    var tail := Missing(token, |text| - o);
    s := "" + token + tail;
    FoundAtStart(token, tail);
    ReplacedAtStart(token, text, tail, "");
    BeginningCompleted(token, text, o);
    Exhibit(s, token, text, "" + (text + tail), o);
  }

  lemma FoundAtStart(token: string, tail: string)
    ensures Find("" + token + tail, token, 0) == Some(|""|)
  {
    assert OccursAt("" + token + tail, token, 0);
  }

  lemma StartCompleted(token: string, text: string, m: nat)
    requires m < |token| && Comparable(token[m..], text)
    ensures OccursAt(token[..m] + (text + Missing(token, m + |text|)), token, 0)
  {
    var x, n, tail := token[..m], m + |text|, Missing(token, m + |text|);
    var out := x + (text + tail);
    forall k | 0 <= k < |token|
      ensures out[k] == token[k]
    {
      assert k < m ==> out[k] == x[k];
      assert m <= k < n ==> out[k] == text[k - m] && token[m..][k - m] == token[k];
      assert n <= k ==> out[k] == tail[k - n];
    }
  }

  lemma RunningOnSurvives(token: string, text: string, m: nat) returns (s: string)
    requires 0 < m < |token| && Comparable(token[m..], text) && FirstAfterOwnStart(token, m)
    ensures Occurs(Replaced(s, 0, token, text), token)
  {
    var tail := Missing(token, m + |text|);
    s := token[..m] + token + tail;
    FirstInLonger(token, m, tail);
    ReplacedAtStart(token, text, tail, token[..m]);
    StartCompleted(token, text, m);
    Exhibit(s, token, text, token[..m] + (text + tail), 0);
  }

  lemma FirstInLonger(token: string, m: nat, tail: string)
    requires m <= |token| && FirstAfterOwnStart(token, m)
    ensures Find(token[..m] + token + tail, token, 0) == Some(m)
  {
    var x := token[..m];
    var s := x + token + tail;
    forall k | 0 <= k < |token|
      ensures s[m + k] == token[k]
    {
    }
    assert OccursAt(s, token, m);
    forall p: nat | p < m
      ensures !OccursAt(s, token, p)
    {
      if OccursAt(s, token, p) {
        forall k | 0 <= k < |token|
          ensures (x + token)[p + k] == token[k]
        {
          assert s[p + k] == (x + token)[p + k];
        }
        assert OccursAt(x + token, token, p);
      }
    }
  }

  /** Whatever is scanned, no token is left. */
  ghost predicate AlwaysGone(token: string, text: string)
    requires token != ""
  {
    forall s :: !Occurs(Replaced(s, 0, token, text), token)
  }

  /** When one scan removes a token for good: whatever the scanned text, no token is left
      exactly if the token does not begin in the replacement and nothing that precedes a
      token runs on into it. */
  lemma TokenIsGoneIff(token: string, text: string)
    requires token != ""
    ensures AlwaysGone(token, text) <==> !Survives(token, text)
  {
    if Survives(token, text) {
      var s := SurvivesSomewhere(token, text);
      NotAlwaysGone(s, token, text);
    } else {
      forall s
        ensures !Occurs(Replaced(s, 0, token, text), token)
      {
        NothingSurvives(s, 0, token, text);
      }
    }
  }

  lemma NotAlwaysGone(s: string, token: string, text: string)
    requires token != "" && Occurs(Replaced(s, 0, token, text), token)
    ensures !AlwaysGone(token, text)
  {
  }

  lemma SurvivesSomewhere(token: string, text: string) returns (s: string)
    requires token != "" && Survives(token, text)
    ensures Occurs(Replaced(s, 0, token, text), token)
  {
    if BeginsIn(token, text) {
      var o :| 0 <= o < |text| && Comparable(token, text[o..]);
      s := BeginningSurvives(token, text, o);
    } else {
      var m :| 0 < m < |token| && Comparable(token[m..], text) && FirstAfterOwnStart(token, m);
      s := RunningOnSurvives(token, text, m);
    }
  }

  /** The rewriting of an error text cannot remove the password "red": what it writes
      instead holds it. */
  lemma RedSurvives()
    ensures Survives("red", REDACTED)
    ensures Replaced("red", 0, "red", REDACTED) == REDACTED && Occurs(REDACTED, "red")
  {
    assert Comparable("red", REDACTED[1..]);
    assert OccursAt(REDACTED, "red", 1);
    FoundAtStart("red", "");
    ReplacedAtStart("red", REDACTED, "", "");
    assert "" + "red" + "" == "red" && "" + (REDACTED + "") == REDACTED;
  }

  // ----- when one scan is enough for a number -----

  /** The shape of the token: a word of five letters in double braces. */
  ghost predicate BracedWord(token: string) {
    && |token| == 9
    && token[0] == token[1] == '{' && token[7] == token[8] == '}'
    && forall k :: 2 <= k < 7 ==> token[k] != '{' && token[k] != '}'
  }

  lemma ValueTokenIsBraced()
    ensures BracedWord(VALUE_TOKEN)
  {
  }

  ghost predicate IsPiece(piece: string, s: string) {
    exists a: nat, b: nat :: a <= b <= |s| && piece == s[a..b]
  }

  predicate BraceFree(s: string) {
    forall c :: c in s ==> c != '{' && c != '}'
  }

  /** An occurrence in left + text + right, none being inside left or right, would span
      the text, which then were a piece of the token. */
  lemma NoneAcross(left: string, text: string, right: string, token: string)
    requires BraceFree(text) && BracedWord(token) && !IsPiece(text, token)
    requires !Occurs(left, token) && !Occurs(right, token)
    ensures !Occurs(left + (text + right), token)
  {
    forall p: nat
      ensures !OccursAt(left + (text + right), token, p)
    {
      if OccursAt(left + (text + right), token, p) {
        OccurrenceSpansText(left, text, right, token, p);
      }
    }
  }

  lemma CharacterOfText(left: string, text: string, right: string, k: nat)
    ensures |left| <= k < |left| + |text| ==> (left + (text + right))[k] in text
  {
  }

  lemma OccurrenceSpansText(left: string, text: string, right: string, token: string, p: nat)
    requires BraceFree(text) && BracedWord(token)
    requires !Occurs(left, token) && !Occurs(right, token)
    requires OccursAt(left + (text + right), token, p)
    ensures IsPiece(text, token)
  {
    OccurrenceAt(left + (text + right), token, p, 0);
    OccurrenceAt(left + (text + right), token, p, 8);
    CharacterOfText(left, text, right, p);
    CharacterOfText(left, text, right, p + 8);
    OccurrenceWithin(left, text, right, token, p);
    TextWithin(left, text, right, token, p);
  }

  /** Where an occurrence that lies in one of the outer parts is found there. */
  lemma OccurrenceWithin(left: string, text: string, right: string, token: string, p: nat)
    requires OccursAt(left + (text + right), token, p)
    ensures p + |token| <= |left| ==> OccursAt(left, token, p)
    ensures |left| + |text| <= p ==> OccursAt(right, token, p - |left| - |text|)
  {
  }

  lemma TextWithin(left: string, text: string, right: string, token: string, p: nat)
    requires OccursAt(left + (text + right), token, p)
    ensures p <= |left| && |left| + |text| <= p + |token| ==> IsPiece(text, token)
  {
    if p <= |left| && |left| + |text| <= p + |token| {
      var a := |left| - p;
      assert forall k :: 0 <= k < |text| ==> text[k] == token[a + k] by {
        forall k | 0 <= k < |text|
          ensures text[k] == token[a + k]
        {
          assert (left + (text + right))[p + (a + k)] == text[k];
        }
      }
      assert text == token[a..a + |text|];
    }
  }

  lemma {:induction false} OneScanIsEnough(s: string, pos: nat, token: string, text: string)
    requires BracedWord(token) && BraceFree(text) && !IsPiece(text, token) && pos <= |s|
    ensures !Occurs(Replaced(s, pos, token, text), token)
    decreases |s| - pos
  {
    var found := Find(s, token, pos);
    if found.None? {
      NoneInSuffix(s, pos, token);
    } else {
      NoneInSlice(s, pos, found.value, token);
      OneScanIsEnough(s, found.value + 9, token, text);
      NoneAcross(s[pos..found.value], text, Replaced(s, found.value + 9, token, text), token);
    }
  }

  /** A template from which a piece of the token builds the token anew. */
  function Trap(token: string, a: nat, b: nat): string
    requires a <= b <= |token|
  {
    token[..a] + token + token[b..]
  }

  lemma TrapParts(token: string, a: nat, b: nat)
    requires a <= b <= |token|
    ensures |Trap(token, a, b)| == a + |token| + (|token| - b)
    ensures Trap(token, a, b)[0..a] == token[..a] && Trap(token, a, b)[a + |token|..] == token[b..]
  {
  }

  lemma TrapHoldsToken(token: string, a: nat, b: nat)
    requires a <= b <= |token|
    ensures OccursAt(Trap(token, a, b), token, a)
  {
  }

  lemma OccurrenceAt(s: string, token: string, p: nat, k: nat)
    requires k < |token|
    ensures OccursAt(s, token, p) ==> p + k < |s| && s[p + k] == token[k]
  {
  }

  lemma FirstFound(s: string, token: string, a: nat)
    requires BracedWord(token) && 2 <= a <= 7 && OccursAt(s, token, a)
    ensures Find(s, token, 0) == Some(a)
  {
    assert s[a + 0] == token[0] && s[a + 1] == token[1];
    forall p: nat | p < a
      ensures !OccursAt(s, token, p)
    {
      OccurrenceAt(s, token, p, a - p);
      OccurrenceAt(s, token, p, a - p + 1);
    }
  }

  lemma ReplacedOnce(s: string, token: string, text: string, a: nat)
    requires token != "" && Find(s, token, 0) == Some(a) && |s| < a + |token| + |token|
    ensures Replaced(s, 0, token, text) == s[0..a] + (text + s[a + |token|..])
  {
  }

  lemma PieceFormsToken(text: string, token: string, a: nat, b: nat)
    requires BracedWord(token) && 2 <= a <= b <= 7 && text == token[a..b]
    ensures Replaced(Trap(token, a, b), 0, token, text) == token
  {
    TrapParts(token, a, b);
    TrapHoldsToken(token, a, b);
    FirstFound(Trap(token, a, b), token, a);
    ReplacedOnce(Trap(token, a, b), token, text, a);
    PutTogether(token, a, b);
  }

  lemma PutTogether(s: string, a: nat, b: nat)
    requires a <= b <= |s|
    ensures s[..a] + (s[a..b] + s[b..]) == s
  {
  }

  /** A brace-free piece of the token lies between its braces. */
  lemma PieceIsInside(text: string, token: string) returns (a: nat, b: nat)
    requires BracedWord(token) && BraceFree(text) && IsPiece(text, token)
    ensures 2 <= a <= b <= 7 && text == token[a..b]
  {
    a, b :| a <= b <= |token| && text == token[a..b];
    BraceFreeEnds(token, a, b);
    if a == b {
      a, b := 2, 2;
    }
  }

  lemma BraceFreeEnds(token: string, a: nat, b: nat)
    requires BracedWord(token) && a <= b <= |token| && BraceFree(token[a..b])
    ensures a < b ==> 2 <= a && b <= 7
  {
    if a < b {
      assert token[a..b][0] in token[a..b] && token[a..b][b - 1 - a] in token[a..b];
    }
  }

  lemma PieceBreaksOneScan(text: string, token: string)
    requires BracedWord(token) && BraceFree(text) && IsPiece(text, token)
    ensures exists s :: Occurs(Replaced(s, 0, token, text), token)
  {
    var a, b := PieceIsInside(text, token);
    PieceFormsToken(text, token, a, b);
    assert OccursAt(token, token, 0);
    assert Occurs(Replaced(Trap(token, a, b), 0, token, text), token);
  }

  /** For texts without braces: whatever the template, the body holds no token after
      one scan exactly when the text is not a piece of the token, that is of the word
      "value". A printed double has a digit, or is inf or nan, so it never is. */
  lemma OneScanIsEnoughIff(text: string)
    requires BraceFree(text)
    ensures (forall s :: !Occurs(Replaced(s, 0, VALUE_TOKEN, text), VALUE_TOKEN)) <==> !IsPiece(text, VALUE_TOKEN)
  {
    ValueTokenIsBraced();
    if IsPiece(text, VALUE_TOKEN) {
      PieceBreaksOneScan(text, VALUE_TOKEN);
    } else {
      forall s
        ensures !Occurs(Replaced(s, 0, VALUE_TOKEN, text), VALUE_TOKEN)
      {
        OneScanIsEnough(s, 0, VALUE_TOKEN, text);
      }
    }
  }

  /** A character outside the token is enough, and then a second scan changes nothing. */
  lemma NumberIsSubstitutedOnce(s: string, text: string, c: char)
    requires BraceFree(text) && c in text && c !in VALUE_TOKEN
    ensures !Occurs(Replaced(s, 0, VALUE_TOKEN, text), VALUE_TOKEN)
    ensures Replaced(Replaced(s, 0, VALUE_TOKEN, text), 0, VALUE_TOKEN, text) == Replaced(s, 0, VALUE_TOKEN, text)
  {
    ValueTokenIsBraced();
    OneScanIsEnough(s, 0, VALUE_TOKEN, text);
    NothingToReplace(Replaced(s, 0, VALUE_TOKEN, text), VALUE_TOKEN, text);
  }

  lemma NothingToReplace(s: string, token: string, text: string)
    requires token != "" && !Occurs(s, token)
    ensures Replaced(s, 0, token, text) == s
  {
  }
}
