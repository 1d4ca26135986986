/**
 Revision tokens over the four configuration files, and commands that only apply to the state
 their token names.
 */
module ProviderConfig {
  import opened Wrappers
  import opened ConfigTransaction

  // The preimage of a revision token

  /** The first byte of the eight-byte length of anything shorter is below that of "missing". */
  const LIMIT: nat := 109 * 0x100_0000_0000_0000

  type FileBytes = b: Bytes | |b| < LIMIT

  const MISSING: Bytes := [109, 105, 115, 115, 105, 110, 103]

  lemma MissingIsSpelled()
    ensures |MISSING| == |"missing"| && forall i :: 0 <= i < |MISSING| ==> MISSING[i] as int == "missing"[i] as int
  {
  }

  /** The k-byte big-endian form of a number. */
  function BigEndian(n: nat, k: nat): (b: Bytes)
    ensures |b| == k
  {
    if k == 0 then [] else BigEndian(n / 256, k - 1) + [(n % 256) as byte]
  }

  function Power(k: nat): (p: nat)
    ensures p > 0
  {
    if k == 0 then 1 else 256 * Power(k - 1)
  }

  lemma {:induction false} BigEndianInjective(m: nat, n: nat, k: nat)
    requires m < Power(k) && n < Power(k) && BigEndian(m, k) == BigEndian(n, k)
    ensures m == n
  {
    if k > 0 {
      var a, b := BigEndian(m, k), BigEndian(n, k);
      assert a[..k - 1] == BigEndian(m / 256, k - 1) && b[..k - 1] == BigEndian(n / 256, k - 1);
      assert a[k - 1] == (m % 256) as byte && b[k - 1] == (n % 256) as byte;
      BigEndianInjective(m / 256, n / 256, k - 1);
    }
  }

  lemma {:induction false} FirstByteBelow(n: nat, k: nat, bound: byte)
    requires k > 0 && n < bound as nat * Power(k - 1)
    ensures BigEndian(n, k)[0] < bound
  {
    if k == 1 {
      assert Power(0) == 1;
      assert n < bound as nat && n % 256 == n;
      assert BigEndian(n, 1) == [n as byte];
    } else {
      assert Power(k - 1) == 256 * Power(k - 2);
      ScaleDown(n, bound as nat, Power(k - 2));
      FirstByteBelow(n / 256, k - 1, bound);
      assert BigEndian(n, k)[0] == BigEndian(n / 256, k - 1)[0];
    }
  }

  lemma ScaleDown(n: nat, bound: nat, p: nat)
    requires n < bound * (256 * p)
    ensures n / 256 < bound * p
  {
    assert bound * (256 * p) == 256 * (bound * p);
  }

  lemma Powers()
    ensures Power(7) == 0x100_0000_0000_0000 && Power(8) == 0x1_0000_0000_0000_0000
  {
    assert Power(1) == 256 && Power(2) == 65536 && Power(3) == 0x100_0000 && Power(4) == 0x1_0000_0000;
    assert Power(5) == 0x100_0000_0000 && Power(6) == 0x1_0000_0000_0000;
  }

  function EncodeContent(data: Option<FileBytes>): Bytes {
    if data.None? then MISSING else BigEndian(|data.value|, 8) + data.value
  }

  /** What one file adds to the digest. */
  function EncodeFile(name: Bytes, data: Option<FileBytes>): Bytes {
    name + [0] + EncodeContent(data)
  }

  /** A length prefix cannot spell "missing". */
  lemma LengthIsNotMissing(data: FileBytes)
    ensures EncodeContent(Some(data))[0] != MISSING[0]
  {
    Powers();
    FirstByteBelow(|data|, 8, 109);
  }

  /** An encoded content ends where it says: followed by whatever, it can be read in one way only. */
  lemma ContentDecodes(a: Option<FileBytes>, b: Option<FileBytes>, x: Bytes, y: Bytes)
    requires EncodeContent(a) + x == EncodeContent(b) + y
    ensures a == b && x == y
  {
    var p, q := EncodeContent(a) + x, EncodeContent(b) + y;
    assert p[0] == EncodeContent(a)[0] && q[0] == EncodeContent(b)[0];
    if a.Some? { LengthIsNotMissing(a.value); }
    if b.Some? { LengthIsNotMissing(b.value); }
    if a.None? {
      assert p[7..] == x && q[7..] == y;
    } else {
      assert p[..8] == BigEndian(|a.value|, 8) && q[..8] == BigEndian(|b.value|, 8);
      Powers();
      BigEndianInjective(|a.value|, |b.value|, 8);
      var n := 8 + |a.value|;
      assert p[8..n] == a.value && q[8..n] == b.value;
      assert p[n..] == x && q[n..] == y;
    }
  }

  lemma PrefixDrops(prefix: Bytes, s: Bytes, rest: Bytes)
    ensures (prefix + s + rest)[|prefix|..] == s + rest
  {
  }

  lemma FileDecodes(name: Bytes, a: Option<FileBytes>, b: Option<FileBytes>, x: Bytes, y: Bytes)
    requires EncodeFile(name, a) + x == EncodeFile(name, b) + y
    ensures a == b && x == y
  {
    var prefix := name + [0];
    PrefixDrops(prefix, EncodeContent(a), x);
    PrefixDrops(prefix, EncodeContent(b), y);
    ContentDecodes(a, b, x, y);
  }

  /** The baseline, the overlay, the environment file and the credentials, in digest order. */
  type Contents = c: seq<Option<FileBytes>> | |c| == 4 witness [None, None, None, None]
  type Names = c: seq<Bytes> | |c| == 4 witness [[], [], [], []]

  function Preimage(names: seq<Bytes>, contents: seq<Option<FileBytes>>): Bytes
    requires |names| == |contents|
  {
    if names == [] then [] else EncodeFile(names[0], contents[0]) + Preimage(names[1..], contents[1..])
  }

  /** Under the same file names, equal preimages come from equal files. */
  lemma {:induction false} PreimageDecodes(names: seq<Bytes>, a: seq<Option<FileBytes>>, b: seq<Option<FileBytes>>)
    requires |names| == |a| == |b| && Preimage(names, a) == Preimage(names, b)
    ensures a == b
  {
    if names != [] {
      FileDecodes(names[0], a[0], b[0], Preimage(names[1..], a[1..]), Preimage(names[1..], b[1..]));
      PreimageDecodes(names[1..], a[1..], b[1..]);
      assert a == [a[0]] + a[1..] && b == [b[0]] + b[1..];
    }
  }

  lemma PreimageOne(name: Bytes, data: Option<FileBytes>)
    ensures Preimage([name], [data]) == EncodeFile(name, data)
  {
    assert Preimage([name], [data]) == EncodeFile(name, data) + Preimage([name][1..], [data][1..]);
  }

  /** Digesting files in two parts. */
  lemma {:induction false} PreimageSplits(names: seq<Bytes>, contents: seq<Option<FileBytes>>, i: nat)
    requires |names| == |contents| && i <= |names|
    ensures Preimage(names, contents) == Preimage(names[..i], contents[..i]) + Preimage(names[i..], contents[i..])
  {
    if i > 0 {
      assert names[1..][..i - 1] == names[..i][1..] && contents[1..][..i - 1] == contents[..i][1..];
      assert names[1..][i - 1..] == names[i..] && contents[1..][i - 1..] == contents[i..];
      PreimageSplits(names[1..], contents[1..], i - 1);
    } else {
      assert names[..0] == [] && names[0..] == names && contents[0..] == contents;
    }
  }

  lemma PreimageAppends(names: seq<Bytes>, contents: seq<Option<FileBytes>>, i: nat)
    requires |names| == |contents| && i < |names|
    ensures Preimage(names[..i + 1], contents[..i + 1]) == Preimage(names[..i], contents[..i]) + EncodeFile(names[i], contents[i])
  {
    PreimageSplits(names[..i + 1], contents[..i + 1], i);
    assert names[..i + 1][..i] == names[..i] && contents[..i + 1][..i] == contents[..i];
    assert names[..i + 1][i..] == [names[i]] && contents[..i + 1][i..] == [contents[i]];
    PreimageOne(names[i], contents[i]);
  }

  /** The digest as it runs: two updates for every file. */
  method Revision<T>(names: Names, contents: Contents, hash: Bytes -> T) returns (token: T)
    ensures token == Token(hash, names, contents)
  {
    var digest: Bytes := [];
    var i := 0;
    while i < 4
      invariant 0 <= i <= 4
      invariant digest == Preimage(names[..i], contents[..i])
    {
      PreimageAppends(names, contents, i);
      digest := digest + (names[i] + [0]);
      digest := digest + (if contents[i].None? then MISSING else BigEndian(|contents[i].value|, 8) + contents[i].value);
      i := i + 1;
    }
    assert names[..4] == names && contents[..4] == contents;
    return hash(digest);
  }

  function Token<T>(hash: Bytes -> T, names: Names, contents: Contents): T {
    hash(Preimage(names, contents))
  }

  ghost predicate Injective<T(!new)>(hash: Bytes -> T) {
    forall x, y :: hash(x) == hash(y) ==> x == y
  }

  /** A token names one state of the four files. */
  lemma TokenNamesOneState<T(!new)>(hash: Bytes -> T, names: Names, a: Contents, b: Contents)
    requires Injective(hash)
    ensures Token(hash, names, a) == Token(hash, names, b) <==> a == b
  {
    if Token(hash, names, a) == Token(hash, names, b) {
      PreimageDecodes(names, a, b);
    }
  }

  // Commands

  /** A command's own computation; no result means it was refused. */
  type Change = Contents -> Option<Contents>

  /** A command inside the lock: checked once, and the files it read, once it has. */
  datatype Running<T> = Running(token: T, change: Change, base: Option<Contents>)

  datatype Issued<T> = Issued(token: T, contents: Contents)

  datatype Applied<T> = Applied(token: T, base: Contents, before: Contents, after: Contents)

  /** `issued`, `log` and `tampered` are bookkeeping. */
  datatype Machine<T> = Machine(contents: Contents, holder: Option<Running<T>>, issued: seq<Issued<T>>, log: seq<Applied<T>>, tampered: bool)

  datatype Event<T> =
    | Read                            // a client is shown the configuration, with its token
    | Begin(token: T, change: Change) // takes the lock and checks the token
    | Load                            // reads the files
    | Finish                          // checks again and replaces them
    | Release                         // leaves the lock without applying
    | Edit(contents: Contents)        // another writer under the lock
    | Tamper(contents: Contents)      // a writer that ignores the lock

  ghost function Do<T>(hash: Bytes -> T, names: Names, m: Machine<T>, e: Event<T>): Machine<T> {
    match e
    case Read => if m.holder.Some? then m else m.(issued := m.issued + [Issued(Token(hash, names, m.contents), m.contents)])
    case Begin(token, change) =>
      if m.holder.Some? || token != Token(hash, names, m.contents) then m
      else m.(holder := Some(Running(token, change, None)))
    case Load =>
      if m.holder.None? || m.holder.value.base.Some? then m
      else m.(holder := Some(m.holder.value.(base := Some(m.contents))))
    case Finish =>
      if m.holder.None? || m.holder.value.base.None? then m
      else
        var running := m.holder.value;
        var base := running.base.value;
        var result := running.change(base);
        if running.token != Token(hash, names, m.contents) || result.None? then m.(holder := None)
        else m.(holder := None, contents := result.value, log := m.log + [Applied.Applied(running.token, base, m.contents, result.value)])
    case Release => m.(holder := None)
    case Edit(contents) => if m.holder.Some? then m else m.(contents := contents)
    case Tamper(contents) => m.(contents := contents, tampered := true)
  }

  ghost function Run<T>(hash: Bytes -> T, names: Names, start: Contents, events: seq<Event<T>>): Machine<T> {
    if events == [] then Machine(start, None, [], [], false)
    else Do(hash, names, Run(hash, names, start, events[..|events| - 1]), events[|events| - 1])
  }

  ghost predicate IssuedHolds<T>(hash: Bytes -> T, names: Names, issued: seq<Issued<T>>) {
    forall i :: 0 <= i < |issued| ==> issued[i].token == Token(hash, names, issued[i].contents)
  }

  ghost predicate LogHolds<T>(hash: Bytes -> T, names: Names, log: seq<Applied<T>>, tampered: bool) {
    forall i :: 0 <= i < |log| ==> log[i].token == Token(hash, names, log[i].before) && (!tampered ==> log[i].base == log[i].before)
  }

  ghost predicate HolderHolds<T>(hash: Bytes -> T, names: Names, m: Machine<T>) {
    m.holder.Some? && !m.tampered ==>
      && m.holder.value.token == Token(hash, names, m.contents)
      && (m.holder.value.base.Some? ==> m.holder.value.base.value == m.contents)
  }

  lemma {:induction false} RunHolds<T>(hash: Bytes -> T, names: Names, start: Contents, events: seq<Event<T>>)
    ensures var m := Run(hash, names, start, events);
      IssuedHolds(hash, names, m.issued) && LogHolds(hash, names, m.log, m.tampered) && HolderHolds(hash, names, m)
  {
    if events != [] {
      RunHolds(hash, names, start, events[..|events| - 1]);
    }
  }

  /**
   A command that nothing comes between is applied exactly when its token names the files and its
   computation accepts them; then they are what it computed, and otherwise, or when it is
   abandoned, what they were. The lock is free again in any case.
   */
  lemma UndisturbedCommand<T(!new)>(hash: Bytes -> T, names: Names, m: Machine<T>, token: T, change: Change)
    requires m.holder.None?
    ensures var loaded := Do(hash, names, Do(hash, names, m, Begin(token, change)), Load);
      var done := Do(hash, names, loaded, Finish);
      && done.holder.None? && done.issued == m.issued && done.tampered == m.tampered
      && (if token == Token(hash, names, m.contents) && change(m.contents).Some?
          then done.contents == change(m.contents).value && |done.log| == |m.log| + 1
          else done == m)
      && Do(hash, names, loaded, Release) == m
      && Do(hash, names, loaded, Edit(m.contents)) == loaded
    ensures forall contents :: Do(hash, names, m, Edit(contents)) == m.(contents := contents)
    ensures Do(hash, names, m, Read) == m.(issued := m.issued + [Issued(Token(hash, names, m.contents), m.contents)])
  {
  }

  /**
   No update is lost: whatever the clients, editors and other processes do in between, an
   applied command replaced exactly the files its token was issued for and, as long as every
   writer takes the lock, was computed from them.
   */
  lemma AppliedToTheStateItsTokenNamed<T(!new)>(hash: Bytes -> T, names: Names, start: Contents, events: seq<Event<T>>, i: nat, j: nat)
    requires Injective(hash)
    requires var m := Run(hash, names, start, events); i < |m.log| && j < |m.issued| && m.log[i].token == m.issued[j].token
    ensures var m := Run(hash, names, start, events);
      && m.log[i].before == m.issued[j].contents
      && (!m.tampered ==> m.log[i].base == m.issued[j].contents)
  {
    RunHolds(hash, names, start, events);
    var m := Run(hash, names, start, events);
    TokenNamesOneState(hash, names, m.log[i].before, m.issued[j].contents);
  }

  // What a command was computed from

  /** Event l read the files for the command that event f applies, with nothing but other threads' events in between. */
  ghost predicate IsReadFor<T(!new)>(hash: Bytes -> T, names: Names, start: Contents, events: seq<Event<T>>, l: nat, f: nat, base: Contents)
    requires l < f <= |events|
  {
    && events[l].Load? && base == Run(hash, names, start, events[..l]).contents
    && forall k :: l < k <= f ==> IsLoaded(Run(hash, names, start, events[..k]), base)
  }

  ghost predicate IsLoaded<T>(m: Machine<T>, base: Contents) {
    m.holder.Some? && m.holder.value.base == Some(base)
  }

  lemma ReadForExtends<T(!new)>(hash: Bytes -> T, names: Names, start: Contents, events: seq<Event<T>>, n: nat, l: nat, f: nat, base: Contents)
    requires l < f <= n <= |events| && IsReadFor(hash, names, start, events[..n], l, f, base)
    ensures IsReadFor(hash, names, start, events, l, f, base)
  {
    assert events[..n][..l] == events[..l];
    forall k | l < k <= f ensures IsLoaded(Run(hash, names, start, events[..k]), base) {
      assert events[..n][..k] == events[..k];
    }
  }

  lemma ReadForNext<T(!new)>(hash: Bytes -> T, names: Names, start: Contents, events: seq<Event<T>>, l: nat, base: Contents)
    requires l + 1 < |events| && IsReadFor(hash, names, start, events, l, |events| - 1, base)
    requires IsLoaded(Run(hash, names, start, events), base)
    ensures IsReadFor(hash, names, start, events, l, |events|, base)
  {
    assert events[..|events|] == events;
  }

  /** Where a command that has read its files got them. */
  lemma LoadedNow<T>(hash: Bytes -> T, names: Names, m: Machine<T>, e: Event<T>, base: Contents)
    requires IsLoaded(Do(hash, names, m, e), base)
    ensures IsLoaded(m, base) || (e.Load? && base == m.contents)
  {
  }

  lemma {:induction false} HolderReadAt<T(!new)>(hash: Bytes -> T, names: Names, start: Contents, events: seq<Event<T>>, base: Contents)
    returns (l: nat)
    requires IsLoaded(Run(hash, names, start, events), base)
    ensures l < |events| && IsReadFor(hash, names, start, events, l, |events|, base)
  {
    var n := |events| - 1;
    var before := Run(hash, names, start, events[..n]);
    LoadedNow(hash, names, before, events[n], base);
    if IsLoaded(before, base) {
      l := HolderReadAt(hash, names, start, events[..n], base);
      ReadForExtends(hash, names, start, events, n, l, n, base);
      ReadForNext(hash, names, start, events, l, base);
    } else {
      l := n;
      assert events[..|events|] == events;
    }
  }

  /** What a step adds to the log. */
  lemma AppliedNow<T>(hash: Bytes -> T, names: Names, m: Machine<T>, e: Event<T>, i: nat)
    requires i < |Do(hash, names, m, e).log|
    ensures i < |m.log| ==> Do(hash, names, m, e).log[i] == m.log[i]
    ensures i >= |m.log| ==>
      var applied := Do(hash, names, m, e).log[i];
      e.Finish? && IsLoaded(m, applied.base) && applied.before == m.contents && applied.token == Token(hash, names, m.contents)
  {
  }

  /**
   Every applied command has the event that read the files for it and the one that replaced them.
   It was computed from the state its token names if and only if the files carried that token when
   they were read; the second check sees to what it replaces, and says nothing of the read.
   */
  lemma {:induction false} ComputedFromNamedStateIff<T(!new)>(hash: Bytes -> T, names: Names, start: Contents, events: seq<Event<T>>, i: nat)
    returns (l: nat, f: nat)
    requires Injective(hash) && i < |Run(hash, names, start, events).log|
    ensures l < f < |events| && events[f].Finish?
    ensures var applied := Run(hash, names, start, events).log[i];
      && IsReadFor(hash, names, start, events, l, f, applied.base)
      && applied.before == Run(hash, names, start, events[..f]).contents
      && applied.token == Token(hash, names, applied.before)
      && (applied.base == applied.before <==> Token(hash, names, Run(hash, names, start, events[..l]).contents) == applied.token)
  {
    var n := |events| - 1;
    var before := Run(hash, names, start, events[..n]);
    var applied := Run(hash, names, start, events).log[i];
    AppliedNow(hash, names, before, events[n], i);
    if i < |before.log| {
      l, f := ComputedFromNamedStateIff(hash, names, start, events[..n], i);
      assert events[..n][..l] == events[..l] && events[..n][..f] == events[..f];
      ReadForExtends(hash, names, start, events, n, l, f, applied.base);
    } else {
      l := HolderReadAt(hash, names, start, events[..n], applied.base);
      f := n;
      ReadForExtends(hash, names, start, events, n, l, n, applied.base);
      TokenNamesOneState(hash, names, applied.base, applied.before);
    }
  }

  /** Of two commands with the same token, the second is refused unless the files are back to what the token names. */
  lemma TokenIsSpent<T(!new)>(hash: Bytes -> T, names: Names, m: Machine<T>, token: T, change: Change, before: Contents)
    requires Injective(hash) && token == Token(hash, names, before) && m.holder.None?
    ensures Do(hash, names, m, Begin(token, change)).holder.Some? <==> m.contents == before
  {
    TokenNamesOneState(hash, names, m.contents, before);
  }

  /** A writer that ignores the lock can change the files and change them back around the read: both checks pass. */
  lemma TamperedReadGoesUnnoticed<T(!new)>(hash: Bytes -> T, names: Names, start: Contents, other: Contents, change: Change)
    requires other != start && change(other).Some?
    ensures var token := Token(hash, names, start);
      var events := [Begin(token, change), Tamper(other), Load, Tamper(start), Finish];
      var m := Run(hash, names, start, events);
      |m.log| == 1 && m.log[0].before == start && m.log[0].base == other
  {
    var token := Token(hash, names, start);
    RunNext(hash, names, start, [], Begin(token, change));
    RunNext(hash, names, start, [Begin(token, change)], Tamper(other));
    RunNext(hash, names, start, [Begin(token, change)] + [Tamper(other)], Load);
    RunNext(hash, names, start, [Begin(token, change)] + [Tamper(other)] + [Load], Tamper(start));
    RunNext(hash, names, start, [Begin(token, change)] + [Tamper(other)] + [Load] + [Tamper(start)], Finish);
    assert [Begin(token, change)] + [Tamper(other)] + [Load] + [Tamper(start)] + [Finish]
        == [Begin(token, change), Tamper(other), Load, Tamper(start), Finish];
  }

  lemma RunNext<T>(hash: Bytes -> T, names: Names, start: Contents, events: seq<Event<T>>, e: Event<T>)
    ensures Run(hash, names, start, events + [e]) == Do(hash, names, Run(hash, names, start, events), e)
  {
    assert (events + [e])[..|events|] == events;
  }

  // A command as it runs, inside the lock

  datatype Reply = Conflict | Invalid | Validated | Failed | Updated

  class ProviderConfiguration<T(==)> {
    const names: Names
    const hash: Bytes -> T
    var contents: Contents
    ghost var issued: seq<Issued<T>>
    ghost var log: seq<Applied<T>>

    constructor (names: Names, hash: Bytes -> T, contents: Contents)
      ensures this.names == names && this.hash == hash
      ensures State() == Machine(contents, None, [], [], false)
    {
      this.names, this.hash, this.contents, issued, log := names, hash, contents, [], [];
    }

    ghost function State(): Machine<T>
      reads this
    {
      Machine(contents, None, issued, log, false)
    }

    /**
     Two checks around the computation, and the replacement behind the second. The files change
     only for a command that names their state, and then to what it computed from that state; a
     replacement that fails is taken to have been rolled back.
     */
    method Command(token: T, change: Change, apply: bool) returns (reply: Reply)
      modifies this`contents, this`log
      ensures reply.Conflict? <==> token != Token(hash, names, old(contents))
      ensures reply.Invalid? <==> !reply.Conflict? && change(old(contents)).None?
      ensures reply.Validated? <==> !reply.Conflict? && change(old(contents)).Some? && !apply
      ensures reply.Updated? ==> apply && State() == Do(hash, names, Do(hash, names, Do(hash, names, old(State()), Begin(token, change)), Load), Finish)
      ensures reply.Updated? ==> change(old(contents)) == Some(contents)
      ensures !reply.Updated? ==> State() == old(State())
      ensures reply.Updated? || reply.Failed? ==> apply
    {
      var current := Revision(names, contents, hash);
      if token != current {
        return Conflict;
      }
      var base := contents;
      var candidate := change(base);
      if candidate.None? {
        return Invalid;
      }
      if !apply {
        return Validated;
      }
      current := Revision(names, contents, hash);
      if token != current {
        return Conflict;
      }
      var replaced: bool := *;
      if !replaced {
        return Failed;
      }
      log := log + [Applied.Applied(token, base, contents, candidate.value)];
      contents := candidate.value;
      return Updated;
    }
  }
}
