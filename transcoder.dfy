/**
 * The reply transcoder of `sendMessageWhatsApp`: a backend reply is cut, left to
 * right, at every `[caption](url)` reference (optionally written `![caption](url)`)
 * into an ordered list of text and media parts, and the parts are then delivered
 * to the WhatsApp number of the user, skipping those with nothing to send.
 *
 * The regex `/!?\[(.*?)\]\((.*?)\)/g` is read as: an optional `!`, a `[`, a
 * caption running up to the FIRST `](` on the same line, then a url running up
 * to the FIRST `)` on the same line. `NoBacktrackingNeeded` shows why the lazy
 * caption group never has to be stretched to a later `](`.
 */
module Transcoder {
  import opened Wrappers
  import opened Text

  /** One deliverable piece of a reply, in reply order. */
  datatype Part = Text(text: string) | Media(caption: string, url: string)

  /** One message handed to the WhatsApp channel. */
  datatype Action =
    | SendText(number: string, delay: int, text: string)
    | SendMedia(number: string, delay: int, url: string, caption: string)

  /** One regex match: the slice `[start, end)` of the reply and its two groups. */
  datatype Match = Match(start: nat, end: nat, caption: string, url: string)

  /** The markup a match stands for, without the optional leading `!`. */
  function Markup(caption: string, url: string): string {
    "[" + caption + "](" + url + ")"
  }

  /** No line break in `s[lo..hi]`: the regex `.` can run over that stretch. */
  predicate LineFree(s: string, lo: nat, hi: nat)
    requires hi <= |s|
  {
    forall k :: lo <= k < hi ==> !IsLineTerminator(s[k])
  }

  /** The end of the line `i` is on: the first line break at or after `i`, or the
      end of `s`. A `.*?` group starting at `i` cannot reach past it. */
  function LineEnd(s: string, i: nat): (e: nat)
    requires i <= |s|
    ensures i <= e <= |s|
    decreases |s| - i
  {
    if i == |s| || IsLineTerminator(s[i]) then i else LineEnd(s, i + 1)
  }

  lemma {:induction false} LineEndFacts(s: string, i: nat)
    requires i <= |s|
    ensures LineFree(s, i, LineEnd(s, i))
    ensures LineEnd(s, i) < |s| ==> IsLineTerminator(s[LineEnd(s, i)])
    decreases |s| - i
  {
    if !(i == |s| || IsLineTerminator(s[i])) {
      LineEndFacts(s, i + 1);
    }
  }

  /** Two positions on the same line share its end. */
  lemma {:induction false} LineEndShared(s: string, a: nat, b: nat)
    requires a <= |s| && a <= b <= LineEnd(s, a)
    ensures LineEnd(s, b) == LineEnd(s, a)
    decreases b - a
  {
    if a < b {
      LineEndShared(s, a + 1, b);
    }
  }

  predicate ClosesCaptionAt(s: string, k: nat) {
    k + 1 < |s| && s[k] == ']' && s[k + 1] == '('
  }

  /** Where a caption starting at `i` ends: the first `](` on the line of `i`. */
  function CaptionEnd(s: string, i: nat): (k: Option<nat>)
    requires i <= |s|
    ensures k.Some? ==> i <= k.value && k.value + 1 < |s|
    decreases |s| - i
  {
    if i + 1 >= |s| || IsLineTerminator(s[i]) then None
    else if ClosesCaptionAt(s, i) then Some(i)
    else CaptionEnd(s, i + 1)
  }

  /** `CaptionEnd` finds the first `](` on the line, and finds one if the line has one. */
  lemma {:induction false} CaptionEndFacts(s: string, i: nat)
    requires i <= |s|
    ensures var k := CaptionEnd(s, i);
      k.Some? ==> k.value < LineEnd(s, i) && ClosesCaptionAt(s, k.value)
    ensures var k := CaptionEnd(s, i);
      k.Some? ==> forall j :: i <= j < k.value ==> !ClosesCaptionAt(s, j)
    ensures CaptionEnd(s, i).None? ==> forall j :: i <= j < LineEnd(s, i) ==> !ClosesCaptionAt(s, j)
    decreases |s| - i
  {
    if !(i + 1 >= |s| || IsLineTerminator(s[i])) && !ClosesCaptionAt(s, i) {
      CaptionEndFacts(s, i + 1);
    }
  }

  /** Where a url starting at `i` ends: the first `)` on the line of `i`. */
  function UrlEnd(s: string, i: nat): (j: Option<nat>)
    requires i <= |s|
    ensures j.Some? ==> i <= j.value < |s|
    decreases |s| - i
  {
    if i >= |s| || IsLineTerminator(s[i]) then None
    else if s[i] == ')' then Some(i)
    else UrlEnd(s, i + 1)
  }

  /** `UrlEnd` finds the first `)` on the line, and finds one if the line has one. */
  lemma {:induction false} UrlEndFacts(s: string, i: nat)
    requires i <= |s|
    ensures var j := UrlEnd(s, i);
      j.Some? ==> j.value < LineEnd(s, i) && s[j.value] == ')'
    ensures var j := UrlEnd(s, i);
      j.Some? ==> forall k :: i <= k < j.value ==> s[k] != ')'
    ensures UrlEnd(s, i).None? ==> forall k :: i <= k < LineEnd(s, i) ==> s[k] != ')'
    decreases |s| - i
  {
    if !(i >= |s| || IsLineTerminator(s[i])) && s[i] != ')' {
      UrlEndFacts(s, i + 1);
    }
  }

  /** A match whose `[` is at `open`, the whole match starting at `start`. */
  function BracketAt(s: string, start: nat, open: nat): (m: Option<Match>)
    requires start <= open < |s| && s[open] == '['
    ensures m.Some? ==> m.value.start == start && open < m.value.end <= |s|
  {
    match CaptionEnd(s, open + 1)
    case None => None
    case Some(k) =>
      match UrlEnd(s, k + 2)
      case None => None
      case Some(j) => Some(Match(start, j + 1, s[open + 1..k], s[k + 2..j]))
  }

  /** A stretch with no line break is, as a string of its own, on one line. */
  lemma LineFreeSlice(s: string, lo: nat, hi: nat)
    requires lo <= hi <= |s| && LineFree(s, lo, hi)
    ensures OnOneLine(s[lo..hi])
  {
    forall t | 0 <= t < hi - lo ensures !IsLineTerminator(s[lo..hi][t]) {
      assert s[lo..hi][t] == s[lo + t];
    }
  }

  /** A stretch with no `)` is, as a string of its own, free of `)`. */
  lemma NoCloseParenSlice(s: string, lo: nat, hi: nat)
    requires lo <= hi <= |s| && forall k :: lo <= k < hi ==> s[k] != ')'
    ensures ')' !in s[lo..hi]
  {
    forall t | 0 <= t < hi - lo ensures s[lo..hi][t] != ')' {
      assert s[lo..hi][t] == s[lo + t];
    }
  }

  /** The slice covered by a bracket match, cut at its four delimiters. */
  lemma MarkupSlice(s: string, open: nat, k: nat, j: nat)
    requires open < k && k + 2 <= j < |s|
    requires s[open] == '[' && s[k] == ']' && s[k + 1] == '(' && s[j] == ')'
    ensures s[open..j + 1] == Markup(s[open + 1..k], s[k + 2..j])
  {
    assert s[open..j + 1] == [s[open]] + s[open + 1..k] + [s[k], s[k + 1]] + s[k + 2..j] + [s[j]];
  }

  /** The positions a bracket match is cut at: its `](` at `k` and its `)` at `j`,
      with neither group crossing a line and no `)` before `j`. */
  lemma {:induction false} BracketAtDelimiters(s: string, start: nat, open: nat) returns (k: nat, j: nat)
    requires start <= open < |s| && s[open] == '[' && BracketAt(s, start, open).Some?
    ensures open < k && k + 2 <= j < |s| && BracketAt(s, start, open) == Some(Match(start, j + 1, s[open + 1..k], s[k + 2..j]))
    ensures s[k] == ']' && s[k + 1] == '(' && s[j] == ')'
    ensures LineFree(s, open + 1, k) && LineFree(s, k + 2, j)
    ensures forall t :: k + 2 <= t < j ==> s[t] != ')'
  {
    k := CaptionEnd(s, open + 1).value;
    j := UrlEnd(s, k + 2).value;
    CaptionEndFacts(s, open + 1);
    UrlEndFacts(s, k + 2);
    LineEndFacts(s, open + 1);
    LineEndShared(s, open + 1, k + 2);
  }

  lemma {:induction false} BracketAtMarkup(s: string, start: nat, open: nat)
    requires start <= open < |s| && s[open] == '[' && BracketAt(s, start, open).Some?
    ensures var m := BracketAt(s, start, open).value;
      s[open..m.end] == Markup(m.caption, m.url)
    ensures var m := BracketAt(s, start, open).value;
      OnOneLine(m.caption) && OnOneLine(m.url) && ')' !in m.url
  {
    var k, j := BracketAtDelimiters(s, start, open);
    MarkupSlice(s, open, k, j);
    LineFreeSlice(s, open + 1, k);
    LineFreeSlice(s, k + 2, j);
    NoCloseParenSlice(s, k + 2, j);
  }

  predicate OnOneLine(s: string) {
    forall k :: 0 <= k < |s| ==> !IsLineTerminator(s[k])
  }

  /** The match the regex finds when it is tried at position `p`, if any. */
  function MatchAt(s: string, p: nat): (m: Option<Match>)
    ensures m.Some? ==> m.value.start == p < m.value.end <= |s|
  {
    var open := if p < |s| && s[p] == '!' then p + 1 else p;
    if open < |s| && s[open] == '[' then BracketAt(s, p, open) else None
  }

  /** What a match covers: its markup, with or without the leading `!`; neither
      group crosses a line, and the url holds no `)`. */
  lemma {:induction false} MatchAtMarkup(s: string, p: nat)
    requires MatchAt(s, p).Some?
    ensures var m := MatchAt(s, p).value;
      s[p..m.end] == Markup(m.caption, m.url) || s[p..m.end] == "!" + Markup(m.caption, m.url)
    ensures var m := MatchAt(s, p).value;
      OnOneLine(m.caption) && OnOneLine(m.url) && ')' !in m.url
  {
    var m := MatchAt(s, p).value;
    if s[p] == '!' {
      BracketAtMarkup(s, p, p + 1);
      assert s[p..m.end] == [s[p]] + s[p + 1..m.end];
    } else {
      BracketAtMarkup(s, p, p);
    }
  }

  /** The lazy caption group would only be stretched past the first `](` if no `)`
      followed it on the line; then none follows any later `](` on that line either,
      so the first `](` is the only candidate the regex can use. */
  lemma {:induction false} NoBacktrackingNeeded(s: string, i: nat, k: nat, k': nat)
    requires i <= |s| && CaptionEnd(s, i) == Some(k) && UrlEnd(s, k + 2) == None
    requires k < k' < LineEnd(s, i) && ClosesCaptionAt(s, k')
    ensures UrlEnd(s, k' + 2) == None
  {
    CaptionEndFacts(s, i);
    LineEndFacts(s, i);
    LineEndShared(s, i, k + 2);
    LineEndShared(s, k + 2, k' + 2);
    UrlEndFacts(s, k + 2);
    UrlEndFacts(s, k' + 2);
  }

  /** `regex.exec(message)` with `regex.lastIndex == from`: the leftmost match at or after `from`. */
  function NextMatch(s: string, from: nat): (m: Option<Match>)
    ensures m.Some? ==> from <= m.value.start < m.value.end <= |s|
    decreases |s| - from
  {
    if from >= |s| then None
    else match MatchAt(s, from)
      case Some(x) => Some(x)
      case None => NextMatch(s, from + 1)
  }

  /** What `NextMatch` finds is the match the regex finds at its start. */
  lemma {:induction false} NextMatchFound(s: string, from: nat)
    requires NextMatch(s, from).Some?
    ensures MatchAt(s, NextMatch(s, from).value.start) == NextMatch(s, from)
    decreases |s| - from
  {
    if MatchAt(s, from).None? {
      NextMatchFound(s, from + 1);
    }
  }

  /** No match starts between `from` and what `NextMatch` finds. */
  lemma {:induction false} NextMatchSkips(s: string, from: nat, p: nat)
    requires NextMatch(s, from).Some? && from <= p < NextMatch(s, from).value.start
    ensures MatchAt(s, p).None?
    decreases |s| - from
  {
    if p > from {
      NextMatchSkips(s, from + 1, p);
    }
  }

  /** When `NextMatch` finds nothing, no match starts anywhere from `from` on. */
  lemma {:induction false} NextMatchNone(s: string, from: nat, p: nat)
    requires NextMatch(s, from).None? && from <= p
    ensures MatchAt(s, p).None?
    decreases |s| - from
  {
    if p > from && from < |s| {
      NextMatchNone(s, from + 1, p);
    }
  }

  /** What `NextMatch` finds is a match, and no match starts between `from` and it;
      when it finds none, no match starts anywhere from `from` on. */
  lemma NextMatchIsLeftmost(s: string, from: nat)
    ensures NextMatch(s, from).Some? ==> MatchAt(s, NextMatch(s, from).value.start) == NextMatch(s, from)
    ensures NextMatch(s, from).Some? ==> forall p :: from <= p < NextMatch(s, from).value.start ==> MatchAt(s, p).None?
    ensures NextMatch(s, from).None? ==> forall p :: from <= p ==> MatchAt(s, p).None?
  {
    if NextMatch(s, from).Some? {
      NextMatchFound(s, from);
      forall p | from <= p < NextMatch(s, from).value.start ensures MatchAt(s, p).None? {
        NextMatchSkips(s, from, p);
      }
    } else {
      forall p | from <= p ensures MatchAt(s, p).None? {
        NextMatchNone(s, from, p);
      }
    }
  }

  /** `[caption](url)` is written at `p` with neither group crossing a line and no
      `)` in the url: the shape the regex is meant to find. */
  predicate MarkupAt(s: string, p: nat, caption: string, url: string) {
    OnOneLine(caption) && OnOneLine(url) && ')' !in url
    && p + |Markup(caption, url)| <= |s| && s[p..p + |Markup(caption, url)|] == Markup(caption, url)
  }

  /** A stretch with no line break lies inside the line it starts on. */
  lemma {:induction false} LineEndBeyond(s: string, a: nat, b: nat)
    requires a <= b <= |s| && LineFree(s, a, b)
    ensures b <= LineEnd(s, a)
    decreases b - a
  {
    if a < b {
      LineEndBeyond(s, a + 1, b);
    }
  }

  /** Markup written at `p`: its delimiters, and no line break from the caption to the `)`. */
  lemma {:induction false} MarkupDelimiters(s: string, p: nat, caption: string, url: string)
    requires MarkupAt(s, p, caption, url)
    ensures var k0 := p + 1 + |caption|; var e := k0 + 2 + |url|;
      e < |s| && s[p] == '[' && ClosesCaptionAt(s, k0) && s[e] == ')' && LineFree(s, p + 1, e + 1)
  {
    var mk := Markup(caption, url);
    var k0 := p + 1 + |caption|;
    var e := k0 + 2 + |url|;
    assert |mk| == e + 1 - p && s[p..e + 1] == mk;
    assert s[p] == mk[0] == '[';
    assert s[k0] == mk[k0 - p] == ']' && s[k0 + 1] == mk[k0 + 1 - p] == '(';
    assert s[e] == mk[e - p] == ')';
    forall t | p + 1 <= t <= e ensures !IsLineTerminator(s[t]) {
      assert s[t] == mk[t - p];
      if t < k0 {
        assert mk[t - p] == caption[t - p - 1];
      } else if k0 + 1 < t < e {
        assert mk[t - p] == url[t - k0 - 2];
      }
    }
  }

  /** Wherever a reference is written, the regex tried there matches: the matcher
      misses no markup. */
  lemma {:induction false} MatchAtComplete(s: string, p: nat, caption: string, url: string)
    requires MarkupAt(s, p, caption, url)
    ensures MatchAt(s, p).Some?
  {
    var k0 := p + 1 + |caption|;
    var e := k0 + 2 + |url|;
    MarkupDelimiters(s, p, caption, url);
    LineEndBeyond(s, p + 1, e + 1);
    CaptionEndFacts(s, p + 1);
    assert CaptionEnd(s, p + 1).Some?;
    var k := CaptionEnd(s, p + 1).value;
    assert k <= k0;
    LineEndShared(s, p + 1, k + 2);
    UrlEndFacts(s, k + 2);
    assert UrlEnd(s, k + 2).Some?;
  }

  /** Every match the regex finds is markup written at its start, or right after a
      leading `!`. */
  lemma MatchIsMarkup(s: string, p: nat)
    ensures MatchAt(s, p).Some? ==> var m := MatchAt(s, p).value;
      MarkupAt(s, p, m.caption, m.url) || MarkupAt(s, p + 1, m.caption, m.url)
  {
    if MatchAt(s, p).Some? {
      var m := MatchAt(s, p).value;
      MatchAtMarkup(s, p);
      if s[p..m.end] != Markup(m.caption, m.url) {
        assert s[p + 1..m.end] == (s[p..m.end])[1..];
      }
    }
  }

  /** The scan stops no later than the first reference written at or after `from`. */
  lemma NextMatchFindsMarkup(s: string, from: nat, p: nat, caption: string, url: string)
    requires from <= p && MarkupAt(s, p, caption, url)
    ensures NextMatch(s, from).Some? && NextMatch(s, from).value.start <= p
  {
    MatchAtComplete(s, p, caption, url);
    NextMatchIsLeftmost(s, from);
  }

  /** The parts the scan produces from `lastIndex` on. */
  function TranscodeFrom(s: string, last: nat): seq<Part>
    requires last <= |s|
    decreases |s| - last
  {
    match NextMatch(s, last)
    case None => if last < |s| then [Text(Trim(s[last..]))] else []
    case Some(m) =>
      (if m.start > last then [Text(Trim(s[last..m.start]))] else [])
      + [Media(m.caption, m.url)] + TranscodeFrom(s, m.end)
  }

  /** The parts of a whole reply, before delivery filters out the empty ones. */
  function Transcode(s: string): seq<Part> {
    TranscodeFrom(s, 0)
  }

  /** The text each part was cut from, in order: a text part's untrimmed slice or a
      media part's markup. */
  ghost function PiecesFrom(s: string, last: nat): seq<string>
    requires last <= |s|
    decreases |s| - last
  {
    match NextMatch(s, last)
    case None => if last < |s| then [s[last..]] else []
    case Some(m) =>
      (if m.start > last then [s[last..m.start]] else [])
      + [s[m.start..m.end]] + PiecesFrom(s, m.end)
  }

  function Concat(pieces: seq<string>): string {
    if pieces == [] then [] else pieces[0] + Concat(pieces[1..])
  }

  lemma {:induction false} ConcatAppend(a: seq<string>, b: seq<string>)
    ensures Concat(a + b) == Concat(a) + Concat(b)
  {
    if a != [] {
      assert (a + b)[0] == a[0] && (a + b)[1..] == a[1..] + b;
      ConcatAppend(a[1..], b);
    } else {
      assert a + b == b;
    }
  }

  /** A part is what its piece of the reply says: the trimmed text of a text piece,
      the caption and url of a media piece. */
  predicate Agrees(piece: string, part: Part) {
    match part
    case Text(t) => t == Trim(piece)
    case Media(c, u) => piece == Markup(c, u) || piece == "!" + Markup(c, u)
  }

  /** The pieces and parts up to and including the match `NextMatch` finds. */
  ghost function HeadPieces(s: string, last: nat, m: Match): seq<string>
    requires last <= m.start <= m.end <= |s|
  {
    (if m.start > last then [s[last..m.start]] else []) + [s[m.start..m.end]]
  }

  lemma {:induction false} HeadCovers(s: string, last: nat, m: Match)
    requires last <= m.start <= m.end <= |s|
    ensures Concat(HeadPieces(s, last, m)) == s[last..m.end]
  {
    var tail := s[m.start..m.end];
    assert Concat([tail]) == tail + Concat([]);
    if m.start > last {
      var pre := s[last..m.start];
      assert HeadPieces(s, last, m) == [pre, tail];
      assert [pre, tail][1..] == [tail];
      assert Concat([pre, tail]) == pre + Concat([tail]);
    } else {
      assert HeadPieces(s, last, m) == [tail];
    }
  }

  lemma {:induction false} HeadAgrees(s: string, last: nat, m: Match)
    requires last <= m.start && MatchAt(s, m.start) == Some(m)
    ensures |HeadPieces(s, last, m)| == |TextBefore(s, last, m) + [Media(m.caption, m.url)]|
    ensures forall i :: 0 <= i < |HeadPieces(s, last, m)| ==>
      Agrees(HeadPieces(s, last, m)[i], (TextBefore(s, last, m) + [Media(m.caption, m.url)])[i])
  {
    MatchAtMarkup(s, m.start);
  }

  /** The head pieces followed by pieces that cover the rest cover the reply from `last` on. */
  lemma HeadThenRest(s: string, last: nat, m: Match, rest: seq<string>)
    requires last <= m.start <= m.end <= |s| && Concat(rest) == s[m.end..]
    ensures Concat(HeadPieces(s, last, m) + rest) == s[last..]
  {
    HeadCovers(s, last, m);
    ConcatAppend(HeadPieces(s, last, m), rest);
    assert s[last..] == s[last..m.end] + s[m.end..];
  }

  /** One step of the scan, on pieces and on parts. */
  lemma {:induction false} PiecesStep(s: string, last: nat)
    requires last <= |s| && NextMatch(s, last).Some?
    ensures var m := NextMatch(s, last).value;
      m.end <= |s| &&
      PiecesFrom(s, last) == HeadPieces(s, last, m) + PiecesFrom(s, m.end) &&
      TranscodeFrom(s, last) == (TextBefore(s, last, m) + [Media(m.caption, m.url)]) + TranscodeFrom(s, m.end)
  {
  }

  /** The pieces from `last` on, put back together, are the reply from `last` on. */
  lemma {:induction false} PiecesCover(s: string, last: nat)
    requires last <= |s|
    ensures Concat(PiecesFrom(s, last)) == s[last..]
    decreases |s| - last
  {
    if NextMatch(s, last).None? {
      if last < |s| {
        assert Concat(PiecesFrom(s, last)) == s[last..] + Concat([]);
      }
    } else {
      var m := NextMatch(s, last).value;
      PiecesStep(s, last);
      PiecesCover(s, m.end);
      HeadThenRest(s, last, m, PiecesFrom(s, m.end));
    }
  }

  /** The parts from `last` on agree one by one with the pieces from `last` on. */
  lemma {:induction false} PiecesAgree(s: string, last: nat)
    requires last <= |s|
    ensures |PiecesFrom(s, last)| == |TranscodeFrom(s, last)|
    ensures forall i :: 0 <= i < |PiecesFrom(s, last)| ==>
      Agrees(PiecesFrom(s, last)[i], TranscodeFrom(s, last)[i])
    decreases |s| - last
  {
    if NextMatch(s, last).Some? {
      var m := NextMatch(s, last).value;
      PiecesStep(s, last);
      PiecesAgree(s, m.end);
      NextMatchFound(s, last);
      HeadAgrees(s, last, m);
      AgreesAppend(HeadPieces(s, last, m), TextBefore(s, last, m) + [Media(m.caption, m.url)],
        PiecesFrom(s, m.end), TranscodeFrom(s, m.end));
    }
  }

  /** Every character of the reply from `last` on lies in exactly one piece, the
      pieces follow the reply's order, and each part agrees with its piece. */
  lemma TranscodeCovers(s: string, last: nat)
    requires last <= |s|
    ensures |PiecesFrom(s, last)| == |TranscodeFrom(s, last)|
    ensures Concat(PiecesFrom(s, last)) == s[last..]
    ensures forall i :: 0 <= i < |PiecesFrom(s, last)| ==>
      Agrees(PiecesFrom(s, last)[i], TranscodeFrom(s, last)[i])
  {
    PiecesCover(s, last);
    PiecesAgree(s, last);
  }

  lemma AgreesAppend(hp: seq<string>, hq: seq<Part>, rp: seq<string>, rq: seq<Part>)
    requires |hp| == |hq| && |rp| == |rq|
    requires forall i :: 0 <= i < |hp| ==> Agrees(hp[i], hq[i])
    requires forall i :: 0 <= i < |rp| ==> Agrees(rp[i], rq[i])
    ensures forall i :: 0 <= i < |hp + rp| ==> Agrees((hp + rp)[i], (hq + rq)[i])
  {
    forall i | 0 <= i < |hp + rp| ensures Agrees((hp + rp)[i], (hq + rq)[i]) {
      if i >= |hp| {
        assert (hp + rp)[i] == rp[i - |hp|];
      }
    }
  }

  /** A reply with no reference in it is one text part, its trimmed self. */
  lemma NoReferenceOnePart(s: string)
    requires forall p :: 0 <= p < |s| ==> MatchAt(s, p).None?
    ensures s != [] ==> Transcode(s) == [Text(Trim(s))]
    ensures s == [] ==> Transcode(s) == []
  {
    NextMatchIsLeftmost(s, 0);
    assert s[0..] == s;
  }

  /** A reply in which no `[caption](url)` is written is one text part, its trimmed self. */
  lemma NoMarkupOnePart(s: string)
    requires forall p: nat, caption: string, url: string :: !MarkupAt(s, p, caption, url)
    ensures s != [] ==> Transcode(s) == [Text(Trim(s))]
    ensures s == [] ==> Transcode(s) == []
  {
    forall p | 0 <= p < |s| ensures MatchAt(s, p).None? {
      MatchIsMarkup(s, p);
    }
    NoReferenceOnePart(s);
  }

  /** The text pushed before a match found at `m`, if the match does not start
      where the previous one ended. */
  function TextBefore(s: string, last: nat, m: Match): seq<Part>
    requires last <= m.start <= |s|
  {
    if m.start > last then [Text(Trim(s[last..m.start]))] else []
  }

  /** One turn of the scanning loop keeps "what is pushed, followed by what the scan
      still produces, is the whole transcoding". */
  lemma {:induction false} ScanAdvances(s: string, last: nat, parts: seq<Part>)
    requires last <= |s| && NextMatch(s, last).Some?
    requires parts + TranscodeFrom(s, last) == Transcode(s)
    ensures var m := NextMatch(s, last).value;
      m.start <= |s| && last < m.end <= |s| &&
      (parts + TextBefore(s, last, m) + [Media(m.caption, m.url)]) + TranscodeFrom(s, m.end) == Transcode(s)
  {
  }

  /** When no match is left, the trailing text completes the transcoding. */
  lemma {:induction false} ScanEnds(s: string, last: nat, parts: seq<Part>)
    requires last <= |s| && NextMatch(s, last).None?
    requires parts + TranscodeFrom(s, last) == Transcode(s)
    ensures (if last < |s| then parts + [Text(Trim(s[last..]))] else parts) == Transcode(s)
  {
  }

  /** The loop of lines 338-353: `regex.exec` is called until it fails, pushing the
      trimmed text before each match and then the match itself. */
  method ParseReply(message: string) returns (parts: seq<Part>)
    ensures parts == Transcode(message)
  {
    parts := [];
    var lastIndex := 0;
    var m := NextMatch(message, lastIndex);
    while m.Some?
      invariant lastIndex <= |message|
      invariant m == NextMatch(message, lastIndex)
      invariant parts + TranscodeFrom(message, lastIndex) == Transcode(message)
      decreases |message| - lastIndex
    {
      var found := m.value;
      ghost var before := parts;
      if found.start > lastIndex {
        parts := parts + [Text(Trim(message[lastIndex..found.start]))];
      }
      parts := parts + [Media(found.caption, found.url)];
      assert parts + TranscodeFrom(message, found.end) == Transcode(message) by {
        ScanAdvances(message, lastIndex, before);
        assert parts == before + TextBefore(message, lastIndex, found) + [Media(found.caption, found.url)];
      }
      lastIndex := found.end;
      m := NextMatch(message, lastIndex);
    }
    ScanEnds(message, lastIndex, parts);
    if lastIndex < |message| {
      parts := parts + [Text(Trim(message[lastIndex..]))];
    }
  }

  /** The messages one part becomes: `if (item.text)` and `if (item.url)`. */
  function DeliverPart(part: Part, number: string, delay: int): (r: seq<Action>)
    ensures |r| == if Sendable(part) then 1 else 0
  {
    match part
    case Text(t) => if t != "" then [SendText(number, delay, t)] else []
    case Media(c, u) => if u != "" then [SendMedia(number, delay, u, c)] else []
  }

  /** The messages a list of parts becomes, in order. */
  function Delivered(parts: seq<Part>, number: string, delay: int): seq<Action> {
    if parts == [] then [] else DeliverPart(parts[0], number, delay) + Delivered(parts[1..], number, delay)
  }

  lemma {:induction false} DeliveredAppend(a: seq<Part>, b: seq<Part>, number: string, delay: int)
    ensures Delivered(a + b, number, delay) == Delivered(a, number, delay) + Delivered(b, number, delay)
  {
    if a != [] {
      assert (a + b)[0] == a[0] && (a + b)[1..] == a[1..] + b;
      DeliveredAppend(a[1..], b, number, delay);
    } else {
      assert a + b == b;
    }
  }

  predicate Nonempty(a: Action) {
    match a
    case SendText(_, _, t) => t != ""
    case SendMedia(_, _, u, _) => u != ""
  }

  /** Nothing empty is ever sent, and everything goes to the one number with the one delay. */
  lemma {:induction false} DeliveredIsNonempty(parts: seq<Part>, number: string, delay: int)
    ensures forall i :: 0 <= i < |Delivered(parts, number, delay)| ==>
      var a := Delivered(parts, number, delay)[i]; Nonempty(a) && a.number == number && a.delay == delay
  {
    if parts != [] {
      DeliveredIsNonempty(parts[1..], number, delay);
    }
  }

  /** A part with something to send: a non-empty text, or media with a url. */
  predicate Sendable(part: Part) {
    (part.Text? && part.text != "") || (part.Media? && part.url != "")
  }

  /** The sendable parts of a list, in their order. */
  function SendableParts(parts: seq<Part>): (r: seq<Part>)
    ensures |r| <= |parts|
    ensures forall i :: 0 <= i < |r| ==> Sendable(r[i])
  {
    if parts == [] then []
    else (if Sendable(parts[0]) then [parts[0]] else []) + SendableParts(parts[1..])
  }

  /** Each sendable part is delivered as exactly one message, and the order is kept. */
  lemma {:induction false} DeliveredKeepsNonemptyParts(parts: seq<Part>, number: string, delay: int)
    requires forall i :: 0 <= i < |parts| ==> Sendable(parts[i])
    ensures |Delivered(parts, number, delay)| == |parts|
    ensures forall i :: 0 <= i < |parts| ==>
      Delivered(parts, number, delay)[i] == DeliverPart(parts[i], number, delay)[0]
  {
    if parts != [] {
      DeliveredKeepsNonemptyParts(parts[1..], number, delay);
    }
  }

  /** Parts with nothing to send are skipped and send nothing. */
  lemma {:induction false} DeliveredSkipsEmptyParts(parts: seq<Part>, number: string, delay: int)
    ensures Delivered(parts, number, delay) == Delivered(SendableParts(parts), number, delay)
  {
    if parts != [] {
      DeliveredSkipsEmptyParts(parts[1..], number, delay);
      var rest := SendableParts(parts[1..]);
      if Sendable(parts[0]) {
        assert ([parts[0]] + rest)[0] == parts[0] && ([parts[0]] + rest)[1..] == rest;
      } else {
        assert [] + rest == rest;
      }
    }
  }

  /** Any list of parts: one message per sendable part, in order, and nothing else. */
  lemma {:induction false} DeliveredIsSendableParts(parts: seq<Part>, number: string, delay: int)
    ensures |Delivered(parts, number, delay)| == |SendableParts(parts)|
    ensures forall i :: 0 <= i < |SendableParts(parts)| ==>
      Delivered(parts, number, delay)[i] == DeliverPart(SendableParts(parts)[i], number, delay)[0]
  {
    DeliveredSkipsEmptyParts(parts, number, delay);
    DeliveredKeepsNonemptyParts(SendableParts(parts), number, delay);
  }

  /** A reply of white space only sends nothing. */
  lemma BlankReplySendsNothing(s: string, number: string, delay: int)
    requires AllSpace(s)
    ensures Delivered(Transcode(s), number, delay) == []
  {
    forall p | 0 <= p < |s| ensures MatchAt(s, p).None? {
      assert IsSpace(s[p]);
    }
    NoReferenceOnePart(s);
    TrimFacts(s);
  }

  /** `remoteJid.split('@')[0]`: the phone number a message is addressed to. */
  function Number(remoteJid: string): (n: string)
    ensures '@' !in n && |n| <= |remoteJid| && n == remoteJid[..|n|]
    ensures |n| < |remoteJid| ==> remoteJid[|n|] == '@'
  {
    BeforeFirst(remoteJid, '@')
  }

  /** `settings.delayMessage || 1000`: an unset (zero) delay falls back to one second. */
  function Delay(delayMessage: int): (d: int)
    ensures d != 0
    ensures delayMessage == 0 ==> d == 1000
    ensures delayMessage != 0 ==> d == delayMessage
  {
    if delayMessage != 0 then delayMessage else 1000
  }
}
