/**
 * The video-id extraction of `Y2Matez.parseYoutubeId`: one unanchored
 * regular expression, made of an optional `http://` or `https://` scheme, a
 * host part (`youtu.be/`, or `youtube.com/` with an optional `www.` in front,
 * an optional `-nocookie` before `.com/` and an optional `shorts/` after it),
 * a path part (`watch?` then anything up to `v=`, or `embed/`, or `v/`) and a
 * capture group of 11 characters from `[-_0-9A-Za-z]`.
 *
 * It is matched the way `String.prototype.match` does it: the leftmost start
 * position wins. At one position, the alternatives of every group begin with
 * literals that exclude each other (`https://`/`http://`/the host starting
 * with `w` or `y`; `www.`/`youtube`/`youtu.be/`; `-nocookie`/`.com/`;
 * `shorts/`/the path starting with `w`, `e` or `v`; `watch?`/`embed/`/`v/`),
 * so once a literal has matched, backtracking into a later alternative of the
 * same group can never succeed: each matcher below commits to the one
 * alternative whose literal is present. The only real backtracking is the
 * greedy `.*` after `watch?`, which tries the longest run first.
 *
 * `MatchAt`, `HostAt` and `YoutubeAt` try their piece at the front of the
 * text they are given; the inner pieces work on indices into that text.
 * Every matcher returns the index where the capture group starts.
 */
module YoutubeId {
  import opened Wrappers

  const IdLength: nat := 11

  /** `[-_0-9A-Za-z]` */
  predicate IsIdChar(c: char) {
    c == '-' || c == '_' || ('0' <= c <= '9') || ('A' <= c <= 'Z') || ('a' <= c <= 'z')
  }

  /** The characters `.` does not match in a JavaScript regular expression. */
  predicate IsLineTerminator(c: char) {
    c == '\n' || c == '\r' || c == '\U{2028}' || c == '\U{2029}'
  }

  predicate StartsAt(t: string, i: nat, lit: string) {
    i + |lit| <= |t| && t[i..i + |lit|] == lit
  }

  /** `n` characters of `[-_0-9A-Za-z]` start at index `i`. */
  predicate IdRun(t: string, i: nat, n: nat)
    decreases n
  {
    i + n <= |t| && (n == 0 || (IsIdChar(t[i]) && IdRun(t, i + 1, n - 1)))
  }

  /** The capture group `([-_0-9A-Za-z]{11})` matches at index `i`. */
  predicate IdAt(t: string, i: nat) {
    IdRun(t, i, IdLength)
  }

  function Shift(o: Option<nat>, d: nat): Option<nat> {
    if o.Some? then Some(d + o.value) else None
  }

  /** How far `.*` can reach from `r`: up to the next line terminator or the end. */
  function DotRun(t: string, r: nat): (d: nat)
    requires r <= |t|
    ensures r + d <= |t|
    ensures forall k :: r <= k < r + d ==> !IsLineTerminator(t[k])
    ensures r + d == |t| || IsLineTerminator(t[r + d])
    decreases |t| - r
  {
    if r == |t| || IsLineTerminator(t[r]) then 0 else 1 + DotRun(t, r + 1)
  }

  /** `.*(?:|\&)v=` and the id, after `watch?` at `r`, with `.*` covering `len`
      characters and shorter runs tried when that fails. */
  function WatchFrom(t: string, r: nat, len: nat): Option<nat>
    requires r + len <= |t|
    decreases len
  {
    var x := r + len;
    if StartsAt(t, x, "v=") && IdAt(t, x + 2) then Some(x + 2)
    else if StartsAt(t, x, "&v=") && IdAt(t, x + 3) then Some(x + 3)
    else if len == 0 then None
    else WatchFrom(t, r, len - 1)
  }

  /** The path part and the id, at `q`. */
  function PathAt(t: string, q: nat): Option<nat> {
    if StartsAt(t, q, "watch?") then WatchFrom(t, q + 6, DotRun(t, q + 6))
    else if StartsAt(t, q, "embed/") && IdAt(t, q + 6) then Some(q + 6)
    else if StartsAt(t, q, "v/") && IdAt(t, q + 2) then Some(q + 2)
    else None
  }

  /** The optional `shorts/` and the path, at `q`. */
  function AfterCom(t: string, q: nat): Option<nat> {
    if StartsAt(t, q, "shorts/") then PathAt(t, q + 7) else PathAt(t, q)
  }

  /** `youtube`, the optional `-nocookie`, `.com/` and the rest, at the front of `t`. */
  function YoutubeAt(t: string): Option<nat> {
    if !StartsAt(t, 0, "youtube") then None
    else if StartsAt(t, 7, "-nocookie") then
      if StartsAt(t, 16, ".com/") then AfterCom(t, 21) else None
    else if StartsAt(t, 7, ".com/") then AfterCom(t, 12)
    else None
  }

  /** The host part and the rest, at the front of `t`. */
  function HostAt(t: string): Option<nat> {
    if StartsAt(t, 0, "www.") then Shift(YoutubeAt(t[4..]), 4)
    else if StartsAt(t, 0, "youtube") then YoutubeAt(t)
    else if StartsAt(t, 0, "youtu.be/") && IdAt(t, 9) then Some(9)
    else None
  }

  /** The whole pattern at the front of `t`: `https://`, `http://` or no scheme. */
  function MatchAt(t: string): Option<nat> {
    if StartsAt(t, 0, "https://") then Shift(HostAt(t[8..]), 8)
    else if StartsAt(t, 0, "http://") then Shift(HostAt(t[7..]), 7)
    else HostAt(t)
  }

  /** The id index of the match at the leftmost start position at or after `p`. */
  function FindFrom(t: string, p: nat): Option<nat>
    decreases |t| - p
  {
    if p > |t| then None
    else
      var m := MatchAt(t[p..]);
      if m.Some? then Shift(m, p) else FindFrom(t, p + 1)
  }

  // ---------------------------------------------------------------------
  // Reference description of the text the pattern accepts between the
  // start of the host and the id (scheme excluded).

  function DropPrefix(w: string, lit: string): string {
    if StartsAt(w, 0, lit) then w[|lit|..] else w
  }

  /** `watch?…v=` (no line terminator in between), `embed/` or `v/`. */
  predicate PathLead(w: string) {
    w == "embed/" || w == "v/" ||
    (|w| >= 8 && StartsAt(w, 0, "watch?") && w[|w| - 2..] == "v=" &&
     forall k :: 6 <= k < |w| - 2 ==> !IsLineTerminator(w[k]))
  }

  predicate ComLead(w: string) {
    StartsAt(w, 0, ".com/") && PathLead(DropPrefix(w[5..], "shorts/"))
  }

  predicate YoutubeLead(w: string) {
    StartsAt(w, 0, "youtube") && ComLead(DropPrefix(w[7..], "-nocookie"))
  }

  /** `youtu.be/`, or `[www.]youtube[-nocookie].com/[shorts/]` followed by a path lead. */
  predicate IsLead(w: string) {
    w == "youtu.be/" || YoutubeLead(DropPrefix(w, "www."))
  }

  /** A lead occupies `t[q..i]` and an id starts at `i`. */
  predicate LeadAndId(t: string, q: nat, i: nat) {
    q <= i <= |t| && IsLead(t[q..i]) && IdAt(t, i)
  }

  /** The id `parseYoutubeId` captures from `s`, if the pattern matches anywhere. */
  function ExtractId(s: string): (r: Option<string>)
    ensures r.Some? ==> |r.value| == IdLength && forall c :: c in r.value ==> IsIdChar(c)
  {
    var m := FindFrom(s, 0);
    if m.Some? then
      FoundId(s);
      Some(s[m.value..m.value + IdLength])
    else None
  }

  // ---------------------------------------------------------------------
  // Small facts about literals at a position.

  lemma FirstChar(t: string, q: nat, lit: string)
    requires |lit| > 0
    ensures StartsAt(t, q, lit) ==> t[q] == lit[0]
  {
    if StartsAt(t, q, lit) {
      assert t[q..q + |lit|][0] == t[q];
    }
  }

  lemma CharAt(t: string, q: nat, lit: string, j: nat)
    requires j < |lit|
    ensures StartsAt(t, q, lit) ==> t[q + j] == lit[j]
  {
    if StartsAt(t, q, lit) {
      assert t[q..q + |lit|][j] == t[q + j];
    }
  }

  lemma DropAt(t: string, q: nat, i: nat, lit: string)
    requires StartsAt(t, q, lit) && q + |lit| <= i <= |t|
    ensures DropPrefix(t[q..i], lit) == t[q + |lit|..i]
  {
    assert t[q..i][..|lit|] == t[q..q + |lit|];
    assert t[q..i][|lit|..] == t[q + |lit|..i];
  }

  lemma NoDropAt(t: string, q: nat, i: nat, lit: string)
    requires q < i <= |t| && |lit| > 0 && t[q] != lit[0]
    ensures DropPrefix(t[q..i], lit) == t[q..i]
  {
    if StartsAt(t[q..i], 0, lit) {
      FirstChar(t[q..i], 0, lit);
    }
  }

  lemma LiftStart(t: string, q: nat, i: nat, lit: string)
    requires q <= i <= |t| && StartsAt(t[q..i], 0, lit)
    ensures StartsAt(t, q, lit) && DropPrefix(t[q..i], lit) == t[q + |lit|..i]
  {
    assert t[q..i][..|lit|] == t[q..q + |lit|];
    assert t[q..i][|lit|..] == t[q + |lit|..i];
  }

  /** Index `i` of `t[p..]` is index `j` of `t`. */
  lemma {:induction false} IdRunSuffix(t: string, p: nat, i: nat, j: nat, n: nat)
    requires p <= |t| && j == p + i
    ensures IdRun(t[p..], i, n) <==> IdRun(t, j, n)
    decreases n
  {
    if n > 0 {
      IdRunSuffix(t, p, i + 1, j + 1, n - 1);
      if i < |t[p..]| {
        assert t[p..][i] == t[j];
      }
    }
  }

  lemma {:induction false} IdRunChars(t: string, i: nat, n: nat)
    requires IdRun(t, i, n)
    ensures forall k :: i <= k < i + n ==> IsIdChar(t[k])
    decreases n
  {
    if n > 0 {
      IdRunChars(t, i + 1, n - 1);
    }
  }

  /** A lead at `q` in `t[p..]` is a lead at `qa == p + q` in `t`. */
  lemma LiftLead(t: string, p: nat, q: nat, i: nat, qa: nat, ia: nat)
    requires p <= |t| && qa == p + q && ia == p + i
    requires LeadAndId(t[p..], q, i)
    ensures LeadAndId(t, qa, ia)
  {
    assert t[p..][q..i] == t[qa..ia];
    IdRunSuffix(t, p, i, ia, IdLength);
  }

  lemma LiftHost(t: string, k: nat, i: nat)
    requires k <= i && k <= |t| && LeadAndId(t[k..], 0, i - k)
    ensures LeadAndId(t, k, i)
  {
    LiftLead(t, k, 0, i - k, k, i);
  }

  /** A lead at `q` in `t` is a lead at the front of `t[q..]`. */
  lemma LowerLead(t: string, q: nat, i: nat)
    requires LeadAndId(t, q, i)
    ensures LeadAndId(t[q..], 0, i - q)
  {
    assert t[q..][0..i - q] == t[q..i];
    IdRunSuffix(t, q, i - q, i, IdLength);
  }

  // ---------------------------------------------------------------------
  // Soundness: whatever the matcher returns is a lead followed by an id.

  /** What `.*(?:|\&)v=` matched: `v=` ends the run `.*` may cover, or
      follows an `&` that ends it. */
  lemma {:induction false} WatchSound(t: string, r: nat, len: nat, i: nat)
    requires r + len <= |t|
    requires WatchFrom(t, r, len).Some? && WatchFrom(t, r, len).value == i
    ensures r + 2 <= i && StartsAt(t, i - 2, "v=") && IdAt(t, i)
    ensures i - 2 <= r + len || (i - 3 == r + len && t[r + len] == '&')
    decreases len
  {
    var x := r + len;
    if StartsAt(t, x, "v=") && IdAt(t, x + 2) {
    } else if StartsAt(t, x, "&v=") && IdAt(t, x + 3) {
      FirstChar(t, x, "&v=");
      assert t[x + 1..x + 3] == t[x..x + 3][1..];
    } else {
      assert WatchFrom(t, r, len - 1).Some? && WatchFrom(t, r, len - 1).value == i;
      WatchSound(t, r, len - 1, i);
    }
  }

  lemma PathSound(t: string, q: nat, i: nat)
    requires PathAt(t, q).Some? && PathAt(t, q).value == i
    ensures q <= i <= |t| && PathLead(t[q..i]) && IdAt(t, i)
  {
    if StartsAt(t, q, "watch?") {
      var r := q + 6;
      WatchSound(t, r, DotRun(t, r), i);
      assert i - 2 <= r + DotRun(t, r);
      var l := t[q..i];
      assert l[..6] == t[q..q + 6];
      assert l[|l| - 2..] == t[i - 2..i];
      assert forall k :: 6 <= k < |l| - 2 ==> l[k] == t[q + k];
    }
  }

  lemma PathLeadFirst(w: string)
    requires PathLead(w)
    ensures |w| > 0 && (w[0] == 'e' || w[0] == 'v' || w[0] == 'w')
  {
    if w != "embed/" && w != "v/" {
      FirstChar(w, 0, "watch?");
    }
  }

  lemma AfterComSound(t: string, q: nat, i: nat)
    requires AfterCom(t, q).Some? && AfterCom(t, q).value == i
    ensures q <= i <= |t| && PathLead(DropPrefix(t[q..i], "shorts/")) && IdAt(t, i)
  {
    if StartsAt(t, q, "shorts/") {
      PathSound(t, q + 7, i);
      DropAt(t, q, i, "shorts/");
    } else {
      PathSound(t, q, i);
      PathLeadFirst(t[q..i]);
      NoDropAt(t, q, i, "shorts/");
    }
  }

  lemma YoutubeSound(t: string, i: nat)
    requires YoutubeAt(t).Some? && YoutubeAt(t).value == i
    ensures i <= |t| && YoutubeLead(t[0..i]) && IdAt(t, i)
  {
    if StartsAt(t, 7, "-nocookie") {
      AfterComSound(t, 21, i);
      DropAt(t, 0, i, "youtube");
      DropAt(t, 7, i, "-nocookie");
      DropAt(t, 16, i, ".com/");
    } else {
      AfterComSound(t, 12, i);
      DropAt(t, 0, i, "youtube");
      FirstChar(t, 7, ".com/");
      NoDropAt(t, 7, i, "-nocookie");
      DropAt(t, 7, i, ".com/");
    }
  }

  lemma HostSound(t: string, i: nat)
    requires HostAt(t).Some? && HostAt(t).value == i
    ensures LeadAndId(t, 0, i)
  {
    if StartsAt(t, 0, "www.") {
      YoutubeSound(t[4..], i - 4);
      assert t[4..][0..i - 4] == t[4..i];
      IdRunSuffix(t, 4, i - 4, i, IdLength);
      DropAt(t, 0, i, "www.");
    } else if StartsAt(t, 0, "youtube") {
      YoutubeSound(t, i);
      FirstChar(t, 0, "youtube");
      NoDropAt(t, 0, i, "www.");
    } else {
      assert t[0..i] == t[0..9];
    }
  }

  /** Returns where the lead of the match at the front of `t` starts. */
  lemma MatchSound(t: string, i: nat) returns (q: nat)
    requires MatchAt(t).Some? && MatchAt(t).value == i
    ensures LeadAndId(t, q, i)
  {
    if StartsAt(t, 0, "https://") {
      HostSound(t[8..], i - 8);
      LiftHost(t, 8, i);
      q := 8;
    } else if StartsAt(t, 0, "http://") {
      HostSound(t[7..], i - 7);
      LiftHost(t, 7, i);
      q := 7;
    } else {
      HostSound(t, i);
      q := 0;
    }
  }

  lemma FindHere(t: string, p: nat)
    requires p <= |t| && MatchAt(t[p..]).Some?
    ensures FindFrom(t, p).Some? && FindFrom(t, p).value == p + MatchAt(t[p..]).value
  {
  }

  lemma FindNext(t: string, p: nat)
    requires p <= |t| && MatchAt(t[p..]).None?
    ensures FindFrom(t, p) == FindFrom(t, p + 1)
  {
  }

  /** Returns where the lead of the leftmost match at or after `p` starts. */
  lemma {:induction false} FindSound(t: string, p: nat) returns (q: nat)
    requires FindFrom(t, p).Some?
    ensures p <= q && LeadAndId(t, q, FindFrom(t, p).value)
    decreases |t| - p
  {
    var m := MatchAt(t[p..]);
    if m.Some? {
      FindHere(t, p);
      var q' := MatchSound(t[p..], m.value);
      q := p + q';
      LiftLead(t, p, q', m.value, q, FindFrom(t, p).value);
    } else {
      FindNext(t, p);
      q := FindSound(t, p + 1);
    }
  }

  lemma FoundId(s: string)
    requires FindFrom(s, 0).Some?
    ensures FindFrom(s, 0).value + IdLength <= |s|
    ensures forall k :: FindFrom(s, 0).value <= k < FindFrom(s, 0).value + IdLength ==> IsIdChar(s[k])
  {
    var q := FindSound(s, 0);
    IdRunChars(s, FindFrom(s, 0).value, IdLength);
  }

  // ---------------------------------------------------------------------
  // Completeness: wherever a lead followed by an id occurs, the pattern
  // matches (at that start position or at an earlier one).

  lemma {:induction false} DotRunMax(t: string, r: nat, x: nat)
    requires r <= x <= |t|
    requires forall k :: r <= k < x ==> !IsLineTerminator(t[k])
    ensures x - r <= DotRun(t, r)
    decreases x - r
  {
    if r < x {
      DotRunMax(t, r + 1, x);
    }
  }

  lemma {:induction false} WatchComplete(t: string, r: nat, len: nat, x: nat)
    requires r + len <= |t| && r <= x <= r + len
    requires StartsAt(t, x, "v=") && IdAt(t, x + 2)
    ensures WatchFrom(t, r, len).Some?
    decreases len
  {
    if x != r + len {
      var y := r + len;
      if !(StartsAt(t, y, "v=") && IdAt(t, y + 2)) && !(StartsAt(t, y, "&v=") && IdAt(t, y + 3)) {
        WatchComplete(t, r, len - 1, x);
      }
    }
  }

  /** The `watch?…v=` lead of `t[q..i]`, seen from `t`. */
  lemma WatchLeadAt(t: string, q: nat, i: nat)
    requires q <= i <= |t| && PathLead(t[q..i]) && t[q..i] != "embed/" && t[q..i] != "v/"
    ensures q + 8 <= i && StartsAt(t, q, "watch?") && StartsAt(t, i - 2, "v=")
    ensures forall k :: q + 6 <= k < i - 2 ==> !IsLineTerminator(t[k])
  {
    var l := t[q..i];
    assert t[q..q + 6] == l[..6];
    assert t[i - 2..i] == l[|l| - 2..];
    forall k | q + 6 <= k < i - 2
      ensures !IsLineTerminator(t[k])
    {
      assert t[k] == l[k - q];
    }
  }

  lemma PathComplete(t: string, q: nat, i: nat)
    requires q <= i <= |t| && PathLead(t[q..i]) && IdAt(t, i)
    ensures PathAt(t, q).Some?
  {
    if t[q..i] == "embed/" {
      FirstChar(t, q, "watch?");
    } else if t[q..i] == "v/" {
      FirstChar(t, q, "watch?");
      FirstChar(t, q, "embed/");
    } else {
      WatchPathComplete(t, q, i);
    }
  }

  /** The `watch?…v=` alternative of the path lead. */
  lemma WatchPathComplete(t: string, q: nat, i: nat)
    requires q <= i <= |t| && PathLead(t[q..i]) && t[q..i] != "embed/" && t[q..i] != "v/" && IdAt(t, i)
    ensures PathAt(t, q).Some?
  {
    WatchLeadAt(t, q, i);
    DotRunMax(t, q + 6, i - 2);
    WatchComplete(t, q + 6, DotRun(t, q + 6), i - 2);
  }

  lemma AfterComComplete(t: string, q: nat, i: nat)
    requires q <= i <= |t| && PathLead(DropPrefix(t[q..i], "shorts/")) && IdAt(t, i)
    ensures AfterCom(t, q).Some?
  {
    if StartsAt(t[q..i], 0, "shorts/") {
      LiftStart(t, q, i, "shorts/");
      PathComplete(t, q + 7, i);
    } else {
      PathComplete(t, q, i);
      PathLeadFirst(t[q..i]);
      assert t[q..i][0] == t[q];
      FirstChar(t, q, "shorts/");
    }
  }

  lemma YoutubeComplete(t: string, i: nat)
    requires i <= |t| && YoutubeLead(t[0..i]) && IdAt(t, i)
    ensures YoutubeAt(t).Some?
  {
    LiftStart(t, 0, i, "youtube");
    if StartsAt(t[7..i], 0, "-nocookie") {
      LiftStart(t, 7, i, "-nocookie");
      LiftStart(t, 16, i, ".com/");
      AfterComComplete(t, 21, i);
    } else {
      LiftStart(t, 7, i, ".com/");
      FirstChar(t, 7, ".com/");
      FirstChar(t, 7, "-nocookie");
      AfterComComplete(t, 12, i);
    }
  }

  lemma HostComplete(t: string, i: nat)
    requires LeadAndId(t, 0, i)
    ensures HostAt(t).Some?
  {
    if t[0..i] == "youtu.be/" {
      assert t[0..9] == t[0..i];
      FirstChar(t, 0, "www.");
      CharAt(t, 0, "youtube", 5);
    } else if StartsAt(t[0..i], 0, "www.") {
      LiftStart(t, 0, i, "www.");
      assert t[4..i] == t[4..][0..i - 4];
      IdRunSuffix(t, 4, i - 4, i, IdLength);
      YoutubeComplete(t[4..], i - 4);
    } else {
      LiftStart(t, 0, i, "youtube");
      FirstChar(t, 0, "youtube");
      FirstChar(t, 0, "www.");
      YoutubeComplete(t, i);
    }
  }

  /** Every lead starts with `y` or `w`. */
  lemma LeadFirst(t: string, i: nat)
    requires 0 < i <= |t| && IsLead(t[0..i])
    ensures t[0] == 'y' || t[0] == 'w'
  {
    assert t[0..i][0] == t[0];
    if t[0..i] != "youtu.be/" && !StartsAt(t[0..i], 0, "www.") {
      FirstChar(t[0..i], 0, "youtube");
    }
  }

  lemma MatchComplete(t: string, i: nat)
    requires LeadAndId(t, 0, i)
    ensures MatchAt(t).Some?
  {
    LeadFirst(t, i);
    FirstChar(t, 0, "https://");
    FirstChar(t, 0, "http://");
    HostComplete(t, i);
  }

  lemma {:induction false} FindComplete(t: string, p: nat, q: nat, i: nat)
    requires p <= q && LeadAndId(t, q, i)
    ensures FindFrom(t, p).Some?
    decreases q - p
  {
    if p == q {
      LowerLead(t, q, i);
      MatchComplete(t[q..], i - q);
    } else if MatchAt(t[p..]).None? {
      FindComplete(t, p + 1, q, i);
    }
  }

  /** The pattern matches `s` exactly when some lead followed by an id occurs in `s`. */
  lemma ExtractIdIff(s: string)
    ensures ExtractId(s).Some? <==> exists q: nat, i: nat :: LeadAndId(s, q, i)
  {
    if ExtractId(s).Some? {
      var q := FindSound(s, 0);
    }
    if exists q: nat, i: nat :: LeadAndId(s, q, i) {
      var q: nat, i: nat :| LeadAndId(s, q, i);
      FindComplete(s, 0, q, i);
    }
  }

  /** The extracted id is the 11 characters right after some lead in `s`. */
  lemma ExtractIdSound(s: string)
    requires ExtractId(s).Some?
    ensures exists q: nat, i: nat :: LeadAndId(s, q, i) && ExtractId(s).value == s[i..i + IdLength]
  {
    var q := FindSound(s, 0);
  }

  // ---------------------------------------------------------------------
  // Optional prefixes: `http://`, `https://` and `www.` in front of a URL do
  // not change the id.

  /** A match starts with `h` (a scheme), `w` or `y` (a host). */
  lemma MatchFirst(x: string)
    ensures MatchAt(x).Some? ==> |x| > 0 && (x[0] == 'h' || x[0] == 'w' || x[0] == 'y')
  {
    FirstChar(x, 0, "https://");
    FirstChar(x, 0, "http://");
    HostFirst(x);
  }

  lemma HostFirst(x: string)
    ensures HostAt(x).Some? ==> |x| > 0 && (x[0] == 'w' || x[0] == 'y')
  {
    FirstChar(x, 0, "www.");
    FirstChar(x, 0, "youtube");
    FirstChar(x, 0, "youtu.be/");
  }

  /** Start positions whose character is not `h`, `w` or `y` are passed over. */
  lemma {:induction false} SkipPlain(u: string, p: nat, k: nat)
    requires p <= k <= |u|
    requires forall x :: p <= x < k ==> u[x] != 'h' && u[x] != 'w' && u[x] != 'y'
    ensures FindFrom(u, p) == FindFrom(u, k)
    decreases k - p
  {
    if p < k {
      MatchFirst(u[p..]);
      assert u[p..][0] == u[p];
      FindNext(u, p);
      SkipPlain(u, p + 1, k);
    }
  }

  /** The search of `u` from `j` is the search of its suffix `s == u[d..]` from `p == j - d`. */
  predicate Shifted(a: Option<nat>, b: Option<nat>, d: nat) {
    a.Some? == b.Some? && (b.Some? ==> a.value == d + b.value)
  }

  lemma {:induction false} FindShift(u: string, s: string, d: nat, p: nat, j: nat)
    requires d <= |u| && u[d..] == s && j == d + p && p <= |s|
    ensures Shifted(FindFrom(u, j), FindFrom(s, p), d)
    decreases |s| - p
  {
    assert u[j..] == s[p..];
    if MatchAt(s[p..]).Some? {
      FindHere(u, j);
      FindHere(s, p);
    } else {
      FindNext(u, j);
      FindNext(s, p);
      if p < |s| {
        FindShift(u, s, d, p + 1, j + 1);
      }
    }
  }

  lemma ExtractAt(s: string, i: nat)
    requires FindFrom(s, 0).Some? && FindFrom(s, 0).value == i
    ensures i + IdLength <= |s| && ExtractId(s).Some? && ExtractId(s).value == s[i..i + IdLength]
  {
    FoundId(s);
  }

  /** A slice of a suffix is the shifted slice of the whole. */
  lemma SuffixSlice(u: string, d: nat, a: nat, b: nat)
    requires a <= b && d + b <= |u|
    ensures u[d..][a..b] == u[d + a..d + b]
  {
  }

  lemma ShiftedExtract(u: string, s: string, d: nat)
    requires d <= |u| && u[d..] == s && Shifted(FindFrom(u, 0), FindFrom(s, 0), d)
    ensures ExtractId(u) == ExtractId(s)
  {
    if FindFrom(s, 0).Some? {
      var i := FindFrom(s, 0).value;
      ExtractAt(s, i);
      ExtractAt(u, d + i);
      SuffixSlice(u, d, i, i + IdLength);
      assert ExtractId(u).value == ExtractId(s).value;
    } else {
      assert ExtractId(u).None? && ExtractId(s).None?;
    }
  }

  /** A scheme prefix of length `d` in front of `s`, past which no start
      position before `d` can match. */
  lemma SchemeShift(u: string, s: string, d: nat)
    requires d <= |u| && u[d..] == s && 0 < d
    requires MatchAt(u).Some? == HostAt(s).Some?
    requires HostAt(s).Some? ==> MatchAt(u).value == d + HostAt(s).value
    requires forall x :: 1 <= x < d ==> u[x] != 'h' && u[x] != 'w' && u[x] != 'y'
    ensures ExtractId(u) == ExtractId(s)
  {
    if HostAt(s).Some? {
      HostFirst(s);
      FirstChar(s, 0, "https://");
      FirstChar(s, 0, "http://");
      assert u[0..] == u;
      FindHere(u, 0);
      assert s[0..] == s;
      FindHere(s, 0);
    } else {
      assert u[0..] == u;
      FindNext(u, 0);
      SkipPlain(u, 1, d);
      FindShift(u, s, d, 0, d);
    }
    ShiftedExtract(u, s, d);
  }

  lemma HttpsPrefix(s: string)
    ensures ExtractId("https://" + s) == ExtractId(s)
  {
    var u := "https://" + s;
    assert u[..8] == "https://";
    assert u[8..] == s;
    SchemeShift(u, s, 8);
  }

  lemma HttpPrefix(s: string)
    ensures ExtractId("http://" + s) == ExtractId(s)
  {
    var u := "http://" + s;
    assert u[..7] == "http://";
    assert u[7..] == s;
    CharAt(u, 0, "https://", 4);
    SchemeShift(u, s, 7);
  }

  /** `w` followed by `.` within the next two characters starts no match. */
  lemma NoMatchW(x: string, j: nat)
    requires 1 <= j <= 2 && j < |x| && x[0] == 'w' && x[j] == '.'
    ensures MatchAt(x).None?
  {
    FirstChar(x, 0, "https://");
    FirstChar(x, 0, "http://");
    CharAt(x, 0, "www.", j);
    FirstChar(x, 0, "youtube");
    FirstChar(x, 0, "youtu.be/");
  }

  lemma WwwPrefix(s: string)
    ensures ExtractId("www." + s) == ExtractId(s)
  {
    var u := "www." + s;
    assert u[..4] == "www.";
    assert u[4..] == s;
    assert u[0..] == u;
    FirstChar(u, 0, "https://");
    FirstChar(u, 0, "http://");
    if YoutubeAt(s).Some? {
      FirstChar(s, 0, "youtube");
      FirstChar(s, 0, "https://");
      FirstChar(s, 0, "http://");
      FirstChar(s, 0, "www.");
      FindHere(u, 0);
      assert s[0..] == s;
      FindHere(s, 0);
    } else {
      FindNext(u, 0);
      assert u[1..][0] == 'w' && u[1..][2] == '.';
      NoMatchW(u[1..], 2);
      FindNext(u, 1);
      assert u[2..][0] == 'w' && u[2..][1] == '.';
      NoMatchW(u[2..], 1);
      FindNext(u, 2);
      SkipPlain(u, 3, 4);
      FindShift(u, s, 4, 0, 4);
    }
    ShiftedExtract(u, s, 4);
  }

  // ---------------------------------------------------------------------
  // `shorts/` must be followed by a path: `youtube.com/shorts/<id>` on its
  // own yields no id.

  /** Every lead contains a `/`. */
  lemma LeadSlash(x: string, q: nat, i: nat) returns (k: nat)
    requires q <= i <= |x| && IsLead(x[q..i])
    ensures q <= k < i && x[k] == '/'
  {
    var w := x[q..i];
    if w == "youtu.be/" {
      k := q + 8;
      assert x[k] == w[8];
    } else {
      var a := if StartsAt(w, 0, "www.") then 4 else 0;
      assert DropPrefix(w, "www.") == w[a..];
      var b := a + 7;
      assert w[a..][7..] == w[b..];
      var c := if StartsAt(w[b..], 0, "-nocookie") then b + 9 else b;
      assert DropPrefix(w[b..], "-nocookie") == w[c..];
      CharAt(w[c..], 0, ".com/", 4);
      assert w[c..][4] == w[c + 4];
      k := q + c + 4;
      assert x[k] == w[c + 4];
    }
  }

  /** Text made only of id characters contains no match. */
  lemma IdCharsNoMatch(x: string)
    requires forall k :: 0 <= k < |x| ==> IsIdChar(x[k])
    ensures MatchAt(x).None?
  {
    if MatchAt(x).Some? {
      var q := MatchSound(x, MatchAt(x).value);
      var k := LeadSlash(x, q, MatchAt(x).value);
    }
  }

  lemma {:induction false} IdCharsNoFind(u: string, p: nat)
    requires p <= |u| && forall k :: p <= k < |u| ==> IsIdChar(u[k])
    ensures FindFrom(u, p).None?
    decreases |u| - p
  {
    assert forall k :: 0 <= k < |u[p..]| ==> u[p..][k] == u[p + k];
    IdCharsNoMatch(u[p..]);
    FindNext(u, p);
    if p < |u| {
      IdCharsNoFind(u, p + 1);
    }
  }

  const ShortsHost: string := "youtube.com/shorts/"

  lemma ShortsChars(u: string)
    requires |u| >= 19 && u[..19] == ShortsHost
    ensures forall x :: 1 <= x < 13 ==> u[x] != 'h' && u[x] != 'w' && u[x] != 'y'
    ensures forall x :: 14 <= x < 19 ==> u[x] != 'h' && u[x] != 'w' && u[x] != 'y'
    ensures u[13] == 'h' && u[14] == 'o'
  {
    forall x | 1 <= x < 19
      ensures u[x] == ShortsHost[x]
    {
      assert u[x] == u[..19][x];
    }
  }

  /** At 0 the pattern reaches the path part at 19, where id characters
      offer no `?` or `/`. */
  lemma ShortsHead(u: string)
    requires |u| == 30 && u[..19] == ShortsHost
    requires forall k :: 19 <= k < 30 ==> IsIdChar(u[k])
    ensures MatchAt(u).None?
  {
    assert u[0..7] == u[..19][0..7];
    assert u[7..12] == u[..19][7..12];
    assert u[12..19] == u[..19][12..19];
    assert u[0] == u[..19][0] && u[7] == u[..19][7];
    FirstChar(u, 0, "https://");
    FirstChar(u, 0, "http://");
    FirstChar(u, 0, "www.");
    FirstChar(u, 7, "-nocookie");
    CharAt(u, 19, "watch?", 5);
    CharAt(u, 19, "embed/", 5);
    CharAt(u, 19, "v/", 1);
  }

  /** `h` followed by `o` starts neither a scheme nor a host. */
  lemma NoMatchH(x: string)
    requires |x| >= 2 && x[0] == 'h' && x[1] == 'o'
    ensures MatchAt(x).None?
  {
    CharAt(x, 0, "http://", 1);
    CharAt(x, 0, "https://", 1);
    HostFirst(x);
  }

  lemma ShortsAlone(id: string)
    requires |id| == IdLength && forall k :: 0 <= k < |id| ==> IsIdChar(id[k])
    ensures ExtractId(ShortsHost + id).None?
  {
    var u := ShortsHost + id;
    assert u[..19] == ShortsHost;
    assert forall k :: 19 <= k < 30 ==> u[k] == id[k - 19];
    ShortsChars(u);
    ShortsHead(u);
    assert u[0..] == u;
    FindNext(u, 0);
    SkipPlain(u, 1, 13);
    assert u[13..][0] == 'h' && u[13..][1] == 'o';
    NoMatchH(u[13..]);
    FindNext(u, 13);
    SkipPlain(u, 14, 19);
    IdCharsNoFind(u, 19);
  }
}
