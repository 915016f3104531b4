// Search sessions and their page cursors: src/api/contracts.py and _page of src/api/service.py.
module SearchSessions {
  import opened Base64Url
  import opened Decimals
  import opened Wrappers

  // ================ Cursors ================

  // str(uuid): 8-4-4-4-12 lower-case hexadecimal digits.
  predicate Canonical(id: string) {
    && |id| == 36
    && forall i :: 0 <= i < 36 ==>
         if i in {8, 13, 18, 23} then id[i] == '-' else '0' <= id[i] <= '9' || 'a' <= id[i] <= 'f'
  }

  // Python's uuid.UUID (normalised with str) and int accept more than they print; all that is used
  // of them is that they read back what they printed.
  datatype Parsers = Parsers(uuid: string -> Option<string>, number: string -> Option<int>)

  ghost predicate ReadsItsOwn(p: Parsers) {
    && (forall id :: Canonical(id) ==> p.uuid(id) == Some(id))
    && (forall n: nat :: p.number(Digits(n)) == Some(n))
  }

  // There are such parsers.
  lemma ParsersExist() returns (p: Parsers)
    ensures ReadsItsOwn(p)
  {
    hide Digits, Natural;
    p := Parsers(id => Some(id), s => if AllDigits(s) then Some(Natural(s)) else None);
    forall n: nat ensures p.number(Digits(n)) == Some(n) { NaturalOfDigits(n); }
  }

  predicate Ascii(text: string) { forall i :: 0 <= i < |text| ==> text[i] as int < 128 }

  function Bytes(text: string): seq<Byte>
    requires Ascii(text)
  {
    seq(|text|, i requires 0 <= i < |text| => text[i] as int)
  }

  // UTF-8 below 128; other bytes come only from cursors this store never wrote.
  function Text(bytes: seq<Byte>): Option<string> {
    if exists i :: 0 <= i < |bytes| && bytes[i] >= 128 then None
    else Some(seq(|bytes|, i requires 0 <= i < |bytes| => bytes[i] as char))
  }

  function Split(text: string, at: char): seq<string> {
    if text == "" then [""]
    else
      var rest := Split(text[1..], at);
      if text[0] == at then [""] + rest else [[text[0]] + rest[0]] + rest[1..]
  }

  function EncodeCursor(id: string, offset: nat): string
    requires Canonical(id)
  {
    CursorIsAscii(id, offset);
    Encode(Bytes("v1:" + id + ":" + Digits(offset)))
  }

  function DecodeCursor(p: Parsers, cursor: string): Result<(string, nat)> {
    var bytes := Decode(cursor);
    var text := if bytes.Some? then Text(bytes.value) else None;
    if text.None? then Error("invalid")
    else
      var parts := Split(text.value, ':');
      if |parts| != 3 then Error("invalid")
      else
        var id, offset := p.uuid(parts[1]), p.number(parts[2]);
        if id.None? || offset.None? || parts[0] != "v1" || offset.value < 0 then Error("invalid")
        else Ok((id.value, offset.value))
  }

  lemma CursorIsAscii(id: string, offset: nat)
    requires Canonical(id)
    ensures Ascii("v1:" + id + ":" + Digits(offset))
  {
    hide Digits;
    DigitsAreDigits(offset);
  }

  predicate Lacks(text: string, c: char) { forall i :: 0 <= i < |text| ==> text[i] != c }

  lemma {:induction false} SplitLast(text: string, at: char)
    requires Lacks(text, at)
    ensures Split(text, at) == [text]
  {
    if text != "" {
      SplitLast(text[1..], at);
      assert [text[0]] + text[1..] == text;
    }
  }

  lemma {:induction false} SplitFirst(head: string, tail: string, at: char)
    requires Lacks(head, at)
    ensures Split(head + [at] + tail, at) == [head] + Split(tail, at)
  {
    var text := head + [at] + tail;
    if head == "" {
      assert text[1..] == tail;
    } else {
      assert text[1..] == head[1..] + [at] + tail;
      SplitFirst(head[1..], tail, at);
      assert [text[0]] + head[1..] == head;
      assert ([head[1..]] + Split(tail, at))[1..] == Split(tail, at);
    }
  }

  lemma TextOfBytes(text: string)
    requires Ascii(text)
    ensures Text(Bytes(text)) == Some(text)
  {
    var bytes := Bytes(text);
    assert forall i :: 0 <= i < |text| ==> bytes[i] as char == text[i];
    assert seq(|bytes|, i requires 0 <= i < |bytes| => bytes[i] as char) == text;
  }

  // decode_cursor(encode_cursor(id, n)) == (id, n).
  lemma CursorRoundTrip(p: Parsers, id: string, offset: nat)
    requires ReadsItsOwn(p) && Canonical(id)
    ensures DecodeCursor(p, EncodeCursor(id, offset)) == Ok((id, offset))
  {
    hide Encode, Decode, Digits;
    var text := "v1:" + id + ":" + Digits(offset);
    CursorIsAscii(id, offset);
    RoundTrip(Bytes(text));
    TextOfBytes(text);
    DigitsAreDigits(offset);
    assert text == "v1" + ":" + (id + ":" + Digits(offset));
    SplitFirst("v1", id + ":" + Digits(offset), ':');
    SplitFirst(id, Digits(offset), ':');
    SplitLast(Digits(offset), ':');
  }

  // ---- Which cursors are accepted ----

  function Joined(parts: seq<string>, at: char): string
    requires parts != []
  {
    if |parts| == 1 then parts[0] else parts[0] + [at] + Joined(parts[1..], at)
  }

  lemma {:induction false} SplitJoins(text: string, at: char)
    ensures Split(text, at) != [] && Joined(Split(text, at), at) == text
    ensures forall i :: 0 <= i < |Split(text, at)| ==> Lacks(Split(text, at)[i], at)
  {
    if text != "" {
      SplitJoins(text[1..], at);
      var rest, all := Split(text[1..], at), Split(text, at);
      assert text == [text[0]] + text[1..];
      if text[0] == at {
        assert all[1..] == rest;
      } else {
        assert all[1..] == rest[1..];
        assert |rest| > 1 ==> all[0] + [at] + Joined(rest[1..], at) == [text[0]] + (rest[0] + [at] + Joined(rest[1..], at));
      }
    }
  }

  lemma ThreeParts(a: string, b: string, c: string, at: char)
    ensures Joined([a, b, c], at) == a + [at] + b + [at] + c
  {
    assert [a, b, c][1..] == [b, c] && [b, c][1..] == [c];
    assert Joined([b, c], at) == b + [at] + c;
  }

  // A cursor is accepted exactly when its text is "v1", an identifier the parser reads and a number it
  // reads that is not negative, separated by colons.
  lemma DecodesIff(p: Parsers, cursor: string, id: string, offset: nat)
    ensures DecodeCursor(p, cursor) == Ok((id, offset)) <==>
              && Decode(cursor).Some? && Text(Decode(cursor).value).Some?
              && exists a, b :: Lacks(a, ':') && Lacks(b, ':') && Text(Decode(cursor).value).value == "v1:" + a + ":" + b
                   && p.uuid(a) == Some(id) && p.number(b) == Some(offset)
  {
    hide Decode, Text, Split;
    var bytes := Decode(cursor);
    if bytes.Some? && Text(bytes.value).Some? {
      var text := Text(bytes.value).value;
      var parts := Split(text, ':');
      SplitJoins(text, ':');
      if |parts| == 3 {
        assert parts == [parts[0], parts[1], parts[2]];
        ThreeParts(parts[0], parts[1], parts[2], ':');
        assert parts[0] == "v1" ==> text == "v1:" + parts[1] + ":" + parts[2];
      }
      forall a, b | Lacks(a, ':') && Lacks(b, ':') && text == "v1:" + a + ":" + b ensures parts == ["v1", a, b] {
        assert text == "v1" + ":" + (a + ":" + b);
        SplitFirst("v1", a + ":" + b, ':');
        SplitFirst(a, b, ':');
        SplitLast(b, ':');
      }
    }
  }

  // ================ Pages ================

  datatype Session<T> = Session(id: string, items: seq<T>, expiresAt: real)
  datatype Page<T> = Page(items: seq<T>, next: Option<string>)

  function Cut<T>(s: Session<T>, offset: nat, size: nat): Result<Page<T>>
    requires Canonical(s.id)
  {
    if offset > |s.items| then Error("offset")
    else
      var end := if offset + size < |s.items| then offset + size else |s.items|;
      Ok(Page(s.items[offset..end], if end < |s.items| then Some(EncodeCursor(s.id, end)) else None))
  }

  // A page shows the next items, as many as asked for while there are as many, and its cursor leads to the
  // first item not shown; an offset beyond the end is refused.
  lemma PageIs<T>(p: Parsers, s: Session<T>, offset: nat, size: Positive)
    requires ReadsItsOwn(p) && Canonical(s.id)
    ensures var page := Cut(s, offset, size);
            && (page.Ok? <==> offset <= |s.items|)
            && (page.Ok? ==>
                  var shown := |page.value.items|;
                  && shown == (if |s.items| - offset < size then |s.items| - offset else size)
                  && page.value.items == s.items[offset..offset + shown]
                  && (page.value.next.None? <==> offset + shown == |s.items|)
                  && (page.value.next.Some? ==> DecodeCursor(p, page.value.next.value) == Ok((s.id, offset + shown))))
  {
    hide DecodeCursor, EncodeCursor, ReadsItsOwn, Canonical;
    if offset + size < |s.items| { CursorRoundTrip(p, s.id, offset + size); }
  }

  // Follow next_cursor through pages of the given sizes; true when the last page was reached.
  function Follow<T>(p: Parsers, s: Session<T>, cursor: string, sizes: seq<Positive>): (seq<T>, bool)
    requires Canonical(s.id)
    decreases |sizes|
  {
    var at := DecodeCursor(p, cursor);
    if sizes == [] || at.Error? || at.value.0 != s.id then ([], false)
    else
      match Cut(s, at.value.1, sizes[0])
      case Error(_) => ([], false)
      case Ok(page) =>
        if page.next.None? then (page.items, true)
        else
          var (rest, done) := Follow(p, s, page.next.value, sizes[1..]);
          (page.items + rest, done)
  }

  // From any offset, any page sizes show the items that follow in order, each once, and the walk is
  // over after at most as many pages as there are items (and one for an empty session).
  lemma {:induction false} FollowShowsAll<T>(p: Parsers, s: Session<T>, offset: nat, sizes: seq<Positive>)
    requires ReadsItsOwn(p) && Canonical(s.id) && offset <= |s.items|
    ensures var (items, done) := Follow(p, s, EncodeCursor(s.id, offset), sizes);
            && items <= s.items[offset..]
            && (done ==> items == s.items[offset..])
            && (sizes != [] && |sizes| >= |s.items| - offset ==> done)
    decreases |sizes|
  {
    hide DecodeCursor, EncodeCursor, ReadsItsOwn, Canonical;
    CursorRoundTrip(p, s.id, offset);
    if sizes != [] && offset + sizes[0] < |s.items| {
      var end: nat := offset + sizes[0];
      FollowShowsAll(p, s, end, sizes[1..]);
      assert s.items[offset..] == s.items[offset..end] + s.items[end..];
    }
  }

  // ================ The session store ================

  // The OrderedDict, least recently used first.
  type Sessions<T> = seq<Session<T>>

  function Find<T>(sessions: Sessions<T>, id: string): Option<Session<T>> {
    if sessions == [] then None
    else if sessions[0].id == id then Some(sessions[0])
    else Find(sessions[1..], id)
  }

  function Drop<T>(sessions: Sessions<T>, id: string): Sessions<T> {
    if sessions == [] then []
    else (if sessions[0].id == id then [] else [sessions[0]]) + Drop(sessions[1..], id)
  }

  function Unexpired<T>(sessions: Sessions<T>, now: real): Sessions<T> {
    if sessions == [] then []
    else (if sessions[0].expiresAt <= now then [] else [sessions[0]]) + Unexpired(sessions[1..], now)
  }

  // popitem(last=False) until at most `max` are left.
  function Newest<T>(sessions: Sessions<T>, max: Positive): Sessions<T> {
    if |sessions| > max then sessions[|sessions| - max..] else sessions
  }

  function Created<T>(sessions: Sessions<T>, max: Positive, now: real, session: Session<T>): Sessions<T> {
    Newest(Unexpired(sessions, now) + [session], max)
  }

  datatype Lookup<T> = Hit(session: Session<T>) | Unknown | Expired

  function Got<T>(sessions: Sessions<T>, now: real, id: string): (Sessions<T>, Lookup<T>) {
    match Find(sessions, id)
    case None => (sessions, Unknown)
    case Some(s) =>
      if s.expiresAt <= now then (Drop(sessions, id), Expired)
      else (Drop(sessions, id) + [s], Hit(s))
  }

  // ---- Uses: every creation and every successful get, in order ----

  // The sessions used since `id` last was.
  function Since(uses: seq<string>, id: string): set<string> {
    if uses == [] || uses[|uses| - 1] == id then {}
    else {uses[|uses| - 1]} + Since(uses[..|uses| - 1], id)
  }

  ghost predicate Distinct<T>(sessions: Sessions<T>) {
    forall i, j :: 0 <= i < j < |sessions| ==> sessions[i].id != sessions[j].id
  }

  // The order of the store is the order of last use.
  ghost predicate ByUse<T>(sessions: Sessions<T>, uses: seq<string>) {
    && Distinct(sessions)
    && forall i, j :: 0 <= i < j < |sessions| ==> sessions[j].id in Since(uses, sessions[i].id)
  }

  // `part` keeps some of `whole`, in order.
  ghost predicate Within<T>(part: Sessions<T>, whole: Sessions<T>) {
    exists at: seq<nat> :: Picks(at, part, whole)
  }

  ghost predicate Picks<T>(at: seq<nat>, part: Sessions<T>, whole: Sessions<T>) {
    && |at| == |part|
    && (forall i :: 0 <= i < |at| ==> at[i] < |whole| && part[i] == whole[at[i]])
    && (forall i, j :: 0 <= i < j < |at| ==> at[i] < at[j])
  }

  lemma WithinByUse<T>(part: Sessions<T>, whole: Sessions<T>, uses: seq<string>)
    requires Within(part, whole) && ByUse(whole, uses)
    ensures ByUse(part, uses)
  {
    var at: seq<nat> :| Picks(at, part, whole);
    forall i, j | 0 <= i < j < |part| ensures part[i].id != part[j].id && part[j].id in Since(uses, part[i].id) {
      assert at[i] < at[j];
    }
  }

  function Shifted(at: seq<nat>): seq<nat> { seq(|at|, i requires 0 <= i < |at| => at[i] + 1) }

  lemma PicksLater<T>(x: Session<T>, at: seq<nat>, part: Sessions<T>, whole: Sessions<T>)
    requires Picks(at, part, whole)
    ensures Picks(Shifted(at), part, [x] + whole)
  {}

  lemma PicksFirst<T>(x: Session<T>, at: seq<nat>, part: Sessions<T>, whole: Sessions<T>)
    requires Picks(at, part, whole)
    ensures Picks([0] + Shifted(at), [x] + part, [x] + whole)
  {
    var next := [0] + Shifted(at);
    forall i | 0 <= i < |next| ensures next[i] < |[x] + whole| && ([x] + part)[i] == ([x] + whole)[next[i]] {
      if i > 0 { assert part[i - 1] == whole[at[i - 1]]; }
    }
  }

  lemma WithinStep<T>(x: Session<T>, part: Sessions<T>, whole: Sessions<T>)
    requires Within(part, whole)
    ensures Within(part, [x] + whole) && Within([x] + part, [x] + whole)
  {
    hide Picks;
    var at: seq<nat> :| Picks(at, part, whole);
    PicksLater(x, at, part, whole);
    PicksFirst(x, at, part, whole);
  }

  lemma {:induction false} UnexpiredWithin<T>(sessions: Sessions<T>, now: real)
    ensures Within(Unexpired(sessions, now), sessions)
    ensures forall s :: s in Unexpired(sessions, now) <==> s in sessions && s.expiresAt > now
  {
    hide Within;
    if sessions == [] {
      NothingWithin<T>();
    } else {
      var rest := Unexpired(sessions[1..], now);
      UnexpiredWithin(sessions[1..], now);
      WithinStep(sessions[0], rest, sessions[1..]);
      assert [] + rest == rest;
      assert [sessions[0]] + sessions[1..] == sessions;
    }
  }

  lemma NothingWithin<T>()
    ensures Within<T>([], [])
  {
    assert Picks<T>([], [], []);
  }

  lemma {:induction false} DropWithin<T>(sessions: Sessions<T>, id: string)
    ensures Within(Drop(sessions, id), sessions)
    ensures forall s :: s in Drop(sessions, id) <==> s in sessions && s.id != id
  {
    hide Within;
    if sessions == [] {
      NothingWithin<T>();
    } else {
      var rest := Drop(sessions[1..], id);
      DropWithin(sessions[1..], id);
      WithinStep(sessions[0], rest, sessions[1..]);
      assert [] + rest == rest;
      assert [sessions[0]] + sessions[1..] == sessions;
    }
  }

  // A use of a session outside the store, put at its end, keeps the order.
  lemma UseLast<T>(sessions: Sessions<T>, uses: seq<string>, s: Session<T>)
    requires ByUse(sessions, uses) && forall i :: 0 <= i < |sessions| ==> sessions[i].id != s.id
    ensures ByUse(sessions + [s], uses + [s.id])
  {
    var later := uses + [s.id];
    assert later[..|later| - 1] == uses;
    forall i, j | 0 <= i < j < |sessions| + 1
      ensures (sessions + [s])[j].id in Since(later, (sessions + [s])[i].id)
    {
      assert Since(later, sessions[i].id) == {s.id} + Since(uses, sessions[i].id);
    }
  }

  lemma {:induction false} Covers<T>(sessions: Sessions<T>, ids: set<string>)
    requires Distinct(sessions) && forall i :: 0 <= i < |sessions| ==> sessions[i].id in ids
    ensures |ids| >= |sessions|
  {
    if sessions != [] { Covers(sessions[1..], ids - {sessions[0].id}); }
  }

  // Nothing leaves the front of the store until every later session was used after it.
  lemma FrontIsOldest<T>(sessions: Sessions<T>, uses: seq<string>)
    requires sessions != [] && ByUse(sessions, uses)
    ensures |Since(uses, sessions[0].id)| >= |sessions| - 1
  {
    Covers(sessions[1..], Since(uses, sessions[0].id));
  }

  // create: the size stays bounded, the order stays that of use, and an unexpired session is
  // dropped only after `max` other sessions were created or read since its last use.
  lemma CreateKeeps<T>(sessions: Sessions<T>, max: Positive, now: real, s: Session<T>, uses: seq<string>)
    requires ByUse(sessions, uses) && |sessions| <= max && s.id !in uses
    requires forall i :: 0 <= i < |sessions| ==> sessions[i].id in uses
    ensures var after := Created(sessions, max, now, s);
            && |after| <= max && ByUse(after, uses + [s.id]) && s in after
            && (forall i :: 0 <= i < |after| ==> after[i].id in uses + [s.id])
            && (forall x :: x in after ==> x == s || (x in sessions && x.expiresAt > now))
            && (forall x :: x in sessions && x.expiresAt > now && x !in after ==>
                  |Since(uses + [s.id], x.id)| >= max)
  {
    hide Unexpired, Since;
    var live := Unexpired(sessions, now);
    UnexpiredWithin(sessions, now);
    WithinByUse(live, sessions, uses);
    forall i | 0 <= i < |live| ensures live[i].id in uses && live[i].id != s.id { assert live[i] in sessions; }
    UseLast(live, uses, s);
    var all := live + [s];
    FrontIsOldest(all, uses + [s.id]);
    WithinLength(live, sessions);
    assert all[|live|] == s;
    if |all| > max {
      assert Created(sessions, max, now, s) == all[1..];
      assert all[1..][|live| - 1] == s;
      forall x | x in live && x !in all[1..] ensures x == all[0] {
        assert x in all && all == [all[0]] + all[1..];
      }
    } else {
      assert forall x :: x in live ==> x in all;
    }
  }

  lemma WithinLength<T>(part: Sessions<T>, whole: Sessions<T>)
    requires Within(part, whole)
    ensures |part| <= |whole|
  {
    var at: seq<nat> :| Picks(at, part, whole);
    if at != [] { PicksGrow(at, part, whole, |at| - 1); }
  }

  lemma {:induction false} PicksGrow<T>(at: seq<nat>, part: Sessions<T>, whole: Sessions<T>, i: nat)
    requires Picks(at, part, whole) && i < |at|
    ensures at[i] >= i
  {
    if i > 0 { PicksGrow(at, part, whole, i - 1); }
  }

  // get: the answer is the stored session of that id unless it expired; only the session asked for can
  // leave, and only when it expired; a hit moves to the end.
  lemma GetKeeps<T>(sessions: Sessions<T>, max: Positive, now: real, id: string, uses: seq<string>)
    requires ByUse(sessions, uses) && |sessions| <= max
    requires forall i :: 0 <= i < |sessions| ==> sessions[i].id in uses
    ensures var (after, found) := Got(sessions, now, id);
            var later := if found.Hit? then uses + [id] else uses;
            && |after| <= max && ByUse(after, later)
            && (forall i :: 0 <= i < |after| ==> after[i].id in later)
            && (forall x :: x in sessions && x !in after ==> x.id == id && x.expiresAt <= now)
            && (found.Unknown? <==> forall x :: x in sessions ==> x.id != id)
            && (forall x :: x in sessions && x.id == id ==> found == if x.expiresAt > now then Hit(x) else Expired)
            && (found.Hit? ==> after != [] && after[|after| - 1] == found.session)
            && (found.Expired? ==> forall x :: x in after ==> x.id != id)
  {
    hide Since, Drop;
    FindMember(sessions, id);
    DropWithin(sessions, id);
    DropShorter(sessions, id);
    var rest := Drop(sessions, id);
    WithinByUse(rest, sessions, uses);
    forall i | 0 <= i < |rest| ensures rest[i].id in uses && rest[i].id != id { assert rest[i] in sessions; }
    var s := Find(sessions, id);
    if s.Some? { UseLast(rest, uses, s.value); }
  }

  lemma {:induction false} FindMember<T>(sessions: Sessions<T>, id: string)
    ensures var f := Find(sessions, id);
            if f.Some? then f.value in sessions && f.value.id == id else forall s :: s in sessions ==> s.id != id
    ensures Distinct(sessions) && Find(sessions, id).Some? ==>
              forall s :: s in sessions && s.id == id ==> s == Find(sessions, id).value
  {
    if sessions != [] {
      FindMember(sessions[1..], id);
      assert sessions == [sessions[0]] + sessions[1..];
      forall s | Distinct(sessions) && s in sessions[1..] ensures s.id != sessions[0].id {
        var j :| 0 <= j < |sessions| - 1 && sessions[1..][j] == s;
        assert sessions[j + 1] == s;
      }
    }
  }

  lemma {:induction false} DropShorter<T>(sessions: Sessions<T>, id: string)
    ensures |Drop(sessions, id)| <= |sessions|
    ensures Find(sessions, id).Some? ==> |Drop(sessions, id)| < |sessions|
  {
    if sessions != [] { DropShorter(sessions[1..], id); }
  }

  // SearchSessionStore. `uses` is the history of its creations and successful gets.
  class SessionStore<T> {
    const ttl: Duration
    const max: Positive
    var sessions: Sessions<T>
    ghost var uses: seq<string>

    constructor (ttl: Duration, max: Positive)
      ensures this.ttl == ttl && this.max == max && sessions == [] && uses == [] && Valid()
    {
      this.ttl, this.max, sessions, uses := ttl, max, [], [];
    }

    ghost predicate Valid()
      reads this
    {
      && |sessions| <= max && ByUse(sessions, uses)
      && forall i :: 0 <= i < |sessions| ==> sessions[i].id in uses
    }

    // `id` is a new uuid4.
    method Create(id: string, items: seq<T>, now: real) returns (session: Session<T>)
      requires Valid() && id !in uses
      modifies this
      ensures Valid() && uses == old(uses) + [id]
      ensures session == Session(id, items, now + ttl) && session in sessions
      ensures sessions == Created(old(sessions), max, now, session)
      ensures forall x :: x in old(sessions) && x.expiresAt > now && x !in sessions ==> |Since(uses, x.id)| >= max
    {
      session := Session(id, items, now + ttl);
      CreateKeeps(sessions, max, now, session, uses);
      hide ByUse, Since, Unexpired;
      RemoveExpired(now);
      sessions := sessions + [session];
      EvictOldest();
      uses := uses + [id];
    }

    method RemoveExpired(now: real)
      modifies this`sessions
      ensures sessions == Unexpired(old(sessions), now)
    {
      var live: Sessions<T> := [];
      var i := 0;
      while i < |sessions|
        invariant i <= |sessions| && live + Unexpired(sessions[i..], now) == Unexpired(sessions, now)
      {
        ghost var rest := Unexpired(sessions[i + 1..], now);
        assert sessions[i..][1..] == sessions[i + 1..];
        if sessions[i].expiresAt > now {
          assert live + ([sessions[i]] + rest) == (live + [sessions[i]]) + rest;
          live := live + [sessions[i]];
        } else {
          assert [] + rest == rest;
        }
        i := i + 1;
      }
      sessions := live;
    }

    method EvictOldest()
      modifies this`sessions
      ensures sessions == Newest(old(sessions), max)
    {
      while |sessions| > max
        invariant Newest(sessions, max) == Newest(old(sessions), max)
      {
        sessions := sessions[1..];
      }
    }

    method Get(id: string, now: real) returns (found: Lookup<T>)
      requires Valid()
      modifies this
      ensures Valid()
      ensures (sessions, found) == Got(old(sessions), now, id)
      ensures uses == if found.Hit? then old(uses) + [id] else old(uses)
    {
      GetKeeps(sessions, max, now, id, uses);
      var session := Find(sessions, id);
      if session.None? { return Unknown; }
      sessions := Drop(sessions, id);
      if session.value.expiresAt <= now { return Expired; }
      sessions := sessions + [session.value];
      uses := uses + [id];
      found := Hit(session.value);
    }
  }
}
