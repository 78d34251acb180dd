/** The wallet's transaction cache: one text file per sequence number. */
module WalletStore {
  import opened Wrappers
  import opened CacheText
  import Payments

  type Envelope = Payments.Envelope

  /** The XDR codec, taken as given. */
  datatype Codec = Codec(
    encode: Envelope -> seq<Byte>,
    decode: seq<Byte> -> Option<Envelope>,
    sequence: Envelope -> Option<int>)

  /** What is known of the codec: it round-trips, and no envelope encodes to nothing. */
  ghost predicate Faithful(codec: Codec) {
    forall e :: codec.encode(e) != [] && codec.decode(codec.encode(e)) == Some(e)
  }

  /** A file is named by the sequence number of the transaction in it. */
  datatype FileName = FileName(number: int)

  /** A readable file: its name in the directory, its envelope and the envelope's sequence number. */
  datatype Entry = Entry(name: FileName, env: Envelope, sequence: int)

  /** What a file holds. */
  datatype Content = Text(text: string) | NotUtf8

  /** `read_content_from_path`: a file that is not UTF-8 is reported and read as empty. */
  function ReadContent(content: Content): string {
    match content
    case Text(text) => text
    case NotUtf8 => ""
  }

  datatype Extracted = Readable(env: Envelope, sequence: int) | Unreadable | Panic

  /** `extract_tx_envelope_from_path` on the content of a file. */
  function Extract(codec: Codec, content: Content): Extracted {
    match Parse(ReadContent(content))
    case Panics => Panic
    case Invalid => Unreadable
    case Bytes(bytes) =>
      match codec.decode(bytes)
      case None => Unreadable
      case Some(env) =>
        match codec.sequence(env)
        case None => Unreadable
        case Some(n) => Readable(env, n)
  }

  /** A file is readable exactly if its text parses, its bytes decode, and the envelope has a sequence number. */
  lemma ReadableIff(codec: Codec, content: Content, env: Envelope, n: int)
    ensures Extract(codec, content) == Readable(env, n) <==>
              && Parse(ReadContent(content)).Bytes?
              && codec.decode(Parse(ReadContent(content)).bytes) == Some(env)
              && codec.sequence(env) == Some(n)
  {
  }

  /**
   * The reader panics on this file: it is not UTF-8, or without spaces it has fewer than two
   * characters, or its first or last character takes more than one byte.
   */
  predicate Unstrippable(content: Content) {
    match content
    case NotUtf8 => true
    case Text(text) =>
      var s := WithoutSpaces(text);
      |s| < 2 || s[0] as int >= 128 || s[|s| - 1] as int >= 128
  }

  lemma PanicIff(codec: Codec, content: Content)
    ensures Extract(codec, content).Panic? <==> Unstrippable(content)
  {
    ParsePanicsIff(ReadContent(content));
  }

  /** An instance of each: not UTF-8, empty, one character among spaces, and a wide character at either end. */
  lemma FilesThatPanic(codec: Codec, before: string, c: char, after: string, text: string)
    requires forall i :: 0 <= i < |before| ==> before[i] == ' '
    requires forall i :: 0 <= i < |after| ==> after[i] == ' '
    ensures Extract(codec, NotUtf8) == Panic && Extract(codec, Text("")) == Panic
    ensures Extract(codec, Text(before + [c] + after)) == Panic
    ensures c as int >= 128 ==> Extract(codec, Text([c] + text)) == Panic && Extract(codec, Text(text + [c])) == Panic
  {
    OnlySpaces(before);
    OnlySpaces(after);
    WithoutSpacesConcat(before + [c], after);
    WithoutSpacesConcat(before, [c]);
    WithoutSpacesConcat([c], text);
    WithoutSpacesConcat(text, [c]);
    PanicIff(codec, NotUtf8);
    PanicIff(codec, Text(""));
    PanicIff(codec, Text(before + [c] + after));
    PanicIff(codec, Text([c] + text));
    PanicIff(codec, Text(text + [c]));
  }

  lemma {:induction false} OnlySpaces(s: string)
    requires forall i :: 0 <= i < |s| ==> s[i] == ' '
    ensures WithoutSpaces(s) == ""
  {
    if s != "" {
      OnlySpaces(s[..|s| - 1]);
    }
  }

  lemma SavedIsReadable(codec: Codec, env: Envelope)
    requires Faithful(codec) && codec.sequence(env).Some?
    ensures Extract(codec, Text(Print(codec.encode(env)))) == Readable(env, codec.sequence(env).value)
  {
    RoundTrip(codec.encode(env));
  }

  predicate Sorted(es: seq<Entry>) {
    forall i, j :: 0 <= i < j < |es| ==> es[i].sequence <= es[j].sequence
  }

  function Place(es: seq<Entry>, k: nat, e: Entry): seq<Entry>
    requires k <= |es|
  {
    es[..k] + [e] + es[k..]
  }

  lemma PlacePermutes(es: seq<Entry>, k: nat, e: Entry)
    requires k <= |es|
    ensures multiset(Place(es, k, e)) == multiset(es) + multiset{e}
  {
    assert es == es[..k] + es[k..];
  }

  lemma PlaceSorts(es: seq<Entry>, k: nat, e: Entry)
    requires Sorted(es) && k <= |es|
    requires forall i :: 0 <= i < k ==> es[i].sequence <= e.sequence
    requires forall i :: k <= i < |es| ==> e.sequence < es[i].sequence
    ensures Sorted(Place(es, k, e))
  {
    var r := Place(es, k, e);
    assert forall i :: 0 <= i < |r| ==> r[i] == if i < k then es[i] else if i == k then e else es[i - 1];
  }

  /** Puts an entry behind those with no larger sequence number. */
  method Insert(es: seq<Entry>, e: Entry) returns (r: seq<Entry>)
    requires Sorted(es)
    ensures Sorted(r) && multiset(r) == multiset(es) + multiset{e}
  {
    var k := |es|;
    while k > 0 && es[k - 1].sequence > e.sequence
      invariant 0 <= k <= |es|
      invariant forall i :: k <= i < |es| ==> e.sequence < es[i].sequence
    {
      k := k - 1;
    }
    PlacePermutes(es, k, e);
    PlaceSorts(es, k, e);
    r := Place(es, k, e);
  }

  /** `sort_by` on the sequence number. */
  method SortBySequence(es: seq<Entry>) returns (r: seq<Entry>)
    ensures Sorted(r) && multiset(r) == multiset(es)
  {
    r := [];
    for i := 0 to |es|
      invariant Sorted(r) && multiset(r) == multiset(es[..i])
    {
      r := Insert(r, es[i]);
      assert es[..i + 1] == es[..i] + [es[i]];
    }
    assert es[..|es|] == es;
  }

  predicate Distinct(es: seq<Entry>) {
    forall i, j :: 0 <= i < j < |es| ==> es[i] != es[j]
  }

  lemma {:induction false} DistinctCounts(es: seq<Entry>, e: Entry)
    requires Distinct(es)
    ensures multiset(es)[e] <= 1
  {
    if es != [] {
      var n := |es| - 1;
      DistinctCounts(es[..n], e);
      assert es == es[..n] + [es[n]];
      if es[n] == e {
        assert e !in es[..n];
      }
    }
  }

  /** A reordering of distinct entries is distinct. */
  lemma DistinctPermutes(es: seq<Entry>, r: seq<Entry>)
    requires Distinct(es) && multiset(r) == multiset(es)
    ensures Distinct(r)
  {
    forall i, j | 0 <= i < j < |r| ensures r[i] != r[j] {
      DistinctCounts(es, r[j]);
      assert r == r[..j] + [r[j]] + r[j + 1..];
      assert r[..j][i] == r[i];
      assert r[i] in multiset(r[..j]);
    }
  }

  /** The readable files of a directory, each once, in some order. */
  ghost predicate Enumerates(codec: Codec, files: map<FileName, Content>, es: seq<Entry>) {
    && Distinct(es)
    && (forall e :: e in es <==> e.name in files && Extract(codec, files[e.name]) == Readable(e.env, e.sequence))
  }

  function UnreadableNames(codec: Codec, files: map<FileName, Content>): set<FileName> {
    set n | n in files && Extract(codec, files[n]) == Unreadable
  }

  datatype Listing = Listed(envelopes: seq<Envelope>, errors: nat) | AllFailed(errors: nat) | Panicked

  /** The entries and failures of the part of the directory read so far. */
  ghost predicate ReadSoFar(codec: Codec, files: map<FileName, Content>, todo: set<FileName>, entries: seq<Entry>,
                            failed: set<FileName>)
  {
    && Distinct(entries)
    && (forall e :: e in entries <==>
          e.name in files && e.name !in todo && Extract(codec, files[e.name]) == Readable(e.env, e.sequence))
    && (forall n :: n in failed <==> n in files && n !in todo && Extract(codec, files[n]) == Unreadable)
    && (forall n :: n in files && n !in todo ==> !Unstrippable(files[n]))
  }

  lemma ReadOne(codec: Codec, files: map<FileName, Content>, todo: set<FileName>, entries: seq<Entry>,
                failed: set<FileName>, n: FileName)
    requires ReadSoFar(codec, files, todo, entries, failed)
    requires n in todo && n in files && !Unstrippable(files[n])
    ensures match Extract(codec, files[n])
            case Readable(env, sequence) =>
              ReadSoFar(codec, files, todo - {n}, entries + [Entry(n, env, sequence)], failed)
            case Unreadable => ReadSoFar(codec, files, todo - {n}, entries, failed + {n})
            case Panic => false
  {
    PanicIff(codec, files[n]);
    match Extract(codec, files[n]) {
      case Readable(env, sequence) =>
        var added := Entry(n, env, sequence);
        assert added !in entries;
        assert forall e :: e in entries + [added] <==> e in entries || e == added;
      case Unreadable =>
    }
  }

  /** Directory order: any file still to be read. */
  method NextFile(todo: set<FileName>) returns (n: FileName)
    requires todo != {}
    ensures n in todo
  {
    n :| n in todo;
  }

  /** The pass over the directory, in any order, up to the first panic. */
  method ReadAll(codec: Codec, files: map<FileName, Content>)
    returns (entries: seq<Entry>, failed: set<FileName>, panicked: bool)
    ensures panicked <==> exists n :: n in files && Unstrippable(files[n])
    ensures !panicked ==> Enumerates(codec, files, entries) && failed == UnreadableNames(codec, files)
  {
    entries, failed, panicked := [], {}, false;
    var todo := files.Keys;
    while todo != {}
      invariant forall n :: n in todo ==> n in files
      invariant ReadSoFar(codec, files, todo, entries, failed)
      decreases |todo|
    {
      var n := NextFile(todo);
      var extracted := Extract(codec, files[n]);
      PanicIff(codec, files[n]);
      if extracted.Panic? {
        return entries, failed, true;
      }
      ReadOne(codec, files, todo, entries, failed, n);
      if extracted.Readable? {
        entries := entries + [Entry(n, extracted.env, extracted.sequence)];
      } else {
        failed := failed + {n};
      }
      todo := todo - {n};
    }
    assert forall n :: n in failed <==> n in UnreadableNames(codec, files);
  }

  /**
   * `get_tx_envelopes` on any directory. It panics exactly when some file cannot be stripped of
   * its two ends, and errs exactly when there are files and none is readable; otherwise it
   * lists the readable files in ascending sequence and leaves only those.
   */
  method ListTxEnvelopes(codec: Codec, files: map<FileName, Content>)
    returns (r: Listing, remaining: map<FileName, Content>, ghost es: seq<Entry>)
    ensures r.Panicked? <==> exists n :: n in files && Unstrippable(files[n])
    ensures !r.Panicked? ==>
              var failed := UnreadableNames(codec, files);
              && remaining == files - failed
              && Enumerates(codec, files, es) && Sorted(es)
              && r == if es == [] && failed != {} then AllFailed(|failed|)
                      else Listed(seq(|es|, i requires 0 <= i < |es| => es[i].env), |failed|)
  {
    var entries, failed, panicked := ReadAll(codec, files);
    remaining, es := files, [];
    if panicked {
      return Panicked, files, [];
    }
    remaining := files - failed;
    var sorted := SortBySequence(entries);
    SortedEnumerates(codec, files, entries, sorted);
    es := sorted;
    if entries == [] && failed != {} {
      assert |multiset(sorted)| == 0;
      r := AllFailed(|failed|);
    } else {
      assert sorted == [] ==> |multiset(entries)| == 0;
      r := Listed(seq(|sorted|, i requires 0 <= i < |sorted| => sorted[i].env), |failed|);
    }
  }

  lemma SortedEnumerates(codec: Codec, files: map<FileName, Content>, es: seq<Entry>, r: seq<Entry>)
    requires Enumerates(codec, files, es) && multiset(r) == multiset(es)
    ensures Enumerates(codec, files, r)
  {
    DistinctPermutes(es, r);
    forall e ensures e in r <==> e in es {
      assert e in multiset(r) <==> e in multiset(es);
    }
  }

  lemma SavedMembers(codec: Codec, saved: map<FileName, Envelope>, es: seq<Entry>, envelopes: seq<Envelope>)
    requires forall n :: n in saved ==> codec.sequence(saved[n]) == Some(n.number) && Entry(n, saved[n], n.number) in es
    requires forall i :: 0 <= i < |es| ==> es[i].name in saved && saved[es[i].name] == es[i].env
    requires envelopes == seq(|es|, i requires 0 <= i < |es| => es[i].env)
    ensures forall env :: env in envelopes <==> IsSaved(codec, saved, env)
  {
    forall env ensures env in envelopes <==> IsSaved(codec, saved, env) {
      if env in envelopes {
        var i :| 0 <= i < |envelopes| && envelopes[i] == env;
        assert es[i].name in saved;
      }
      if IsSaved(codec, saved, env) {
        var n := FileName(codec.sequence(env).value);
        var i :| 0 <= i < |es| && es[i] == Entry(n, saved[n], n.number);
        assert envelopes[i] == env;
      }
    }
  }

  predicate IsSaved(codec: Codec, saved: map<FileName, Envelope>, env: Envelope) {
    && codec.sequence(env).Some?
    && var name := FileName(codec.sequence(env).value);
    name in saved && saved[name] == env
  }

  predicate Before(codec: Codec, a: Envelope, b: Envelope) {
    codec.sequence(a).Some? && codec.sequence(b).Some? && codec.sequence(a).value < codec.sequence(b).value
  }

  /** A directory that holds exactly the printed encodings of `saved`, under their sequence numbers. */
  ghost predicate Holds(codec: Codec, files: map<FileName, Content>, saved: map<FileName, Envelope>) {
    && files.Keys == saved.Keys
    && (forall n :: n in saved ==>
          codec.sequence(saved[n]) == Some(n.number) && files[n] == Text(Print(codec.encode(saved[n]))))
  }

  lemma AllReadable(codec: Codec, files: map<FileName, Content>, saved: map<FileName, Envelope>)
    requires Faithful(codec) && Holds(codec, files, saved)
    ensures forall n :: n in files ==> Extract(codec, files[n]) == Readable(saved[n], n.number)
    ensures forall n :: n in files ==> !Unstrippable(files[n])
    ensures UnreadableNames(codec, files) == {}
  {
    forall n | n in files ensures Extract(codec, files[n]) == Readable(saved[n], n.number) && !Unstrippable(files[n]) {
      SavedIsReadable(codec, saved[n]);
      PanicIff(codec, files[n]);
    }
  }

  lemma SavedListing(codec: Codec, files: map<FileName, Content>, saved: map<FileName, Envelope>, es: seq<Entry>)
    requires Faithful(codec) && Holds(codec, files, saved)
    requires Enumerates(codec, files, es) && Sorted(es)
    ensures forall i :: 0 <= i < |es| ==>
              es[i].name.number == es[i].sequence && es[i].name in saved && saved[es[i].name] == es[i].env
    ensures forall n :: n in saved ==> Entry(n, saved[n], n.number) in es
    ensures forall i, j :: 0 <= i < j < |es| ==> Before(codec, es[i].env, es[j].env)
  {
    AllReadable(codec, files, saved);
    forall i | 0 <= i < |es|
      ensures es[i].name.number == es[i].sequence && es[i].name in saved && saved[es[i].name] == es[i].env
    {
      assert es[i] in es;
    }
  }

  /** The listing of a directory that holds exactly the saved envelopes. */
  method ListSaved(codec: Codec, files: map<FileName, Content>, ghost saved: map<FileName, Envelope>)
    returns (r: Listing, remaining: map<FileName, Content>)
    requires Faithful(codec) && Holds(codec, files, saved)
    ensures remaining == files && r.Listed? && r.errors == 0
    ensures forall env :: env in r.envelopes <==> IsSaved(codec, saved, env)
    ensures forall i, j :: 0 <= i < j < |r.envelopes| ==> Before(codec, r.envelopes[i], r.envelopes[j])
  {
    AllReadable(codec, files, saved);
    ghost var es;
    r, remaining, es := ListTxEnvelopes(codec, files);
    SavedListing(codec, files, saved, es);
    SavedMembers(codec, saved, es, r.envelopes);
  }

  datatype SaveError = UnknownSequenceNumber | SequenceNumberAlreadyUsed

  class WalletStateStorage {
    const codec: Codec
    var files: map<FileName, Content>
    // the envelopes saved and not removed
    ghost var saved: map<FileName, Envelope>

    /** Only this cache writes its directory. */
    ghost predicate Valid()
      reads this
    {
      Faithful(codec) && Holds(codec, files, saved)
    }

    constructor (codec: Codec)
      requires Faithful(codec)
      ensures Valid() && saved == map[] && this.codec == codec
    {
      this.codec, files, saved := codec, map[], map[];
    }

    /** A sequence number is used once, until its envelope is removed. */
    method SaveTxEnvelope(env: Envelope) returns (r: Result<(), SaveError>)
      requires Valid()
      modifies this
      ensures Valid()
      ensures var n := codec.sequence(env);
              if n.None? then r == Err(UnknownSequenceNumber) && saved == old(saved)
              else if FileName(n.value) in old(saved) then r == Err(SequenceNumberAlreadyUsed) && saved == old(saved)
              else r.Ok? && saved == old(saved)[FileName(n.value) := env]
    {
      var n := codec.sequence(env);
      if n.None? {
        return Err(UnknownSequenceNumber);
      }
      if FileName(n.value) in files {
        return Err(SequenceNumberAlreadyUsed);
      }
      files := files[FileName(n.value) := Text(Print(codec.encode(env)))];
      saved := saved[FileName(n.value) := env];
      return Ok(());
    }

    method RemoveTxEnvelope(n: int)
      requires Valid()
      modifies this
      ensures Valid() && saved == old(saved) - {FileName(n)}
    {
      files := files - {FileName(n)};
      saved := saved - {FileName(n)};
    }

    /**
     * For the directory as this cache writes it, the listing never panics, has no errors,
     * and is every saved envelope once, in strictly ascending sequence.
     */
    method GetTxEnvelopes() returns (r: Listing)
      requires Valid()
      modifies this
      ensures Valid() && saved == old(saved)
      ensures r.Listed? && r.errors == 0
      ensures forall env :: env in r.envelopes <==> IsSaved(codec, saved, env)
      ensures forall i, j :: 0 <= i < j < |r.envelopes| ==> Before(codec, r.envelopes[i], r.envelopes[j])
    {
      r, files := ListSaved(codec, files, saved);
    }
  }
}
