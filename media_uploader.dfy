/**
 * The client-side media upload pipeline: five per-state collections, the combined upload
 * map built from them, and the state updaters run when files are chosen, when credentials
 * arrive, on transfer progress, when a batch of transfers settles and when confirmation fails.
 * Network calls are not modelled; their outcomes are the arguments of the updaters.
 */
module MediaUploader {
  import opened Wrappers

  /** A file chosen by the user: its name (the upload key), declared MIME type and byte size. */
  datatype File = File(name: string, mimeType: string, size: nat)

  type Headers = map<string, string>

  /** An upload that has no credentials yet. */
  datatype UnsignedUpload = UnsignedUpload(key: string, file: File)

  datatype SignedState = Pending | Processing(progress: int) | Successful | Failed

  /**
   * An upload holding the credentials the server issued. `file` is the file found under the
   * record's key in the batch that was sent; it is absent (JavaScript `undefined`) when the
   * server answers with a key that was not in that batch.
   */
  datatype SignedUpload =
    SignedUpload(id: int, key: string, url: string, headers: Headers, file: Option<File>, state: SignedState)

  /** Any entry of the combined upload map. */
  datatype Upload = Unsigned(unsigned: UnsignedUpload) | Signed(signed: SignedUpload)
  {
    function Key(): string
    {
      match this
      case Unsigned(u) => u.key
      case Signed(s) => s.key
    }
  }

  /** What the credential endpoint is sent for one upload: `{key, type, size}`. */
  datatype Descriptor = Descriptor(key: string, mimeType: string, size: nat)

  /** One record of the credential response after it passed the response schema. */
  datatype SignedRecord = SignedRecord(id: int, key: string, url: string, headers: Headers)

  /** A thrown value: an `Error` (or axios error) carries a message, anything else does not. */
  datatype Thrown = ErrorWithMessage(message: string) | OtherThrown

  /** The settled outcome of one transfer, as `Promise.allSettled` reports it. */
  datatype SettledResult = Fulfilled(value: SignedUpload) | Rejected(reason: SignedUpload)

  /** The message used when the thrown value is not an error object (both catch blocks). */
  const FallbackMessage: string := "Error generating a presigned url."

  function ErrorMessage(t: Thrown): string
  {
    match t
    case ErrorWithMessage(m) => m
    case OtherThrown => FallbackMessage
  }

  // ---------------------------------------------------------------------------------------
  // The combined upload map

  function Unsigneds(q: seq<UnsignedUpload>): (r: seq<Upload>)
    ensures |r| == |q| && forall i :: 0 <= i < |q| ==> r[i] == Unsigned(q[i])
  {
    seq(|q|, i requires 0 <= i < |q| => Unsigned(q[i]))
  }

  function Signeds(q: seq<SignedUpload>): (r: seq<Upload>)
    ensures |r| == |q| && forall i :: 0 <= i < |q| ==> r[i] == Signed(q[i])
  {
    seq(|q|, i requires 0 <= i < |q| => Signed(q[i]))
  }

  lemma UnsignedsAppend(a: seq<UnsignedUpload>, b: seq<UnsignedUpload>)
    ensures Unsigneds(a + b) == Unsigneds(a) + Unsigneds(b)
  {
  }

  /** The keys occurring in a list of uploads. */
  function KeysOf(s: seq<Upload>): set<string>
  {
    set i | 0 <= i < |s| :: s[i].Key()
  }

  /**
   * The map `reduce` builds from a list by assigning `map[upload.key] = upload` for each
   * upload in turn: later uploads overwrite earlier ones with the same key.
   */
  function Index(s: seq<Upload>): map<string, Upload>
  {
    if s == [] then map[] else Index(s[..|s| - 1])[s[|s| - 1].Key() := s[|s| - 1]]
  }

  /** The map holds exactly the keys of the list, each bound to the LAST upload with that key. */
  lemma {:induction false} IndexLatest(s: seq<Upload>, k: string)
    ensures k in Index(s) <==> k in KeysOf(s)
    ensures k in Index(s) ==>
      exists i :: 0 <= i < |s| && s[i] == Index(s)[k] && s[i].Key() == k &&
        forall j :: i < j < |s| ==> s[j].Key() != k
  {
    if s != [] {
      var init := s[..|s| - 1];
      IndexLatest(init, k);
      assert forall i :: 0 <= i < |init| ==> init[i] == s[i];
      if s[|s| - 1].Key() == k {
        assert s[|s| - 1] == Index(s)[k];
      } else {
        assert KeysOf(s) == KeysOf(init) + {s[|s| - 1].Key()};
        if k in Index(s) {
          var i :| 0 <= i < |init| && init[i] == Index(init)[k] && init[i].Key() == k &&
            forall j :: i < j < |init| ==> init[j].Key() != k;
          assert s[i] == Index(s)[k];
        }
      }
    }
  }

  lemma IndexKeys(s: seq<Upload>)
    ensures Index(s).Keys == KeysOf(s)
  {
    forall k | k in KeysOf(s) + Index(s).Keys ensures k in Index(s) <==> k in KeysOf(s) {
      IndexLatest(s, k);
    }
  }

  /** Folding a concatenation is folding each part, the second part winning. */
  lemma {:induction false} IndexAppend(a: seq<Upload>, b: seq<Upload>)
    ensures Index(a + b) == Index(a) + Index(b)
  {
    if b == [] {
      assert a + b == a;
    } else {
      var b' := b[..|b| - 1];
      assert (a + b)[..|a + b| - 1] == a + b';
      IndexAppend(a, b');
    }
  }

  /** The processing map, seen as entries of the combined map. */
  function Lift(proc: map<string, SignedUpload>): map<string, Upload>
  {
    map k | k in proc :: Signed(proc[k])
  }

  /**
   * The combined upload map of lines 55-66: all five collections folded in the order
   * unsigned, pending, processing, successful, failed, a later collection overriding an
   * earlier one. (`ComputeUploadMap` below folds the concatenated list entry by entry.)
   */
  function Combine(u: seq<UnsignedUpload>, p: seq<SignedUpload>, proc: map<string, SignedUpload>,
                   s: seq<SignedUpload>, f: seq<SignedUpload>): map<string, Upload>
  {
    Index(Unsigneds(u)) + Index(Signeds(p)) + Lift(proc) + Index(Signeds(s)) + Index(Signeds(f))
  }

  /**
   * The combined map's keys are the union of the five collections' keys, and a key present
   * in several collections takes its entry from the latest collection holding it.
   */
  lemma CombineKeysAndPrecedence(u: seq<UnsignedUpload>, p: seq<SignedUpload>, proc: map<string, SignedUpload>,
                                 s: seq<SignedUpload>, f: seq<SignedUpload>, k: string)
    ensures var m := Combine(u, p, proc, s, f);
      && (k in m <==>
            k in KeysOf(Unsigneds(u)) || k in KeysOf(Signeds(p)) || k in proc ||
            k in KeysOf(Signeds(s)) || k in KeysOf(Signeds(f)))
      && (k in m ==> m[k] == (if k in Index(Signeds(f)) then Index(Signeds(f))[k]
                              else if k in Index(Signeds(s)) then Index(Signeds(s))[k]
                              else if k in proc then Signed(proc[k])
                              else if k in Index(Signeds(p)) then Index(Signeds(p))[k]
                              else Index(Unsigneds(u))[k]))
  {
    IndexLatest(Unsigneds(u), k);
    IndexLatest(Signeds(p), k);
    IndexLatest(Signeds(s), k);
    IndexLatest(Signeds(f), k);
  }

  lemma Regroup<K, V>(a: map<K, V>, b: map<K, V>, c: map<K, V>, d: map<K, V>, e: map<K, V>)
    ensures map[] + (a + b) + c + (d + e) == a + b + c + d + e
  {
  }

  /** The `map[upload.key] = upload` loop of the reduce, started from an existing map. */
  method Accumulate(m0: map<string, Upload>, s: seq<Upload>) returns (m: map<string, Upload>)
    ensures m == m0 + Index(s)
  {
    m := m0;
    var i := 0;
    while i < |s|
      invariant 0 <= i <= |s|
      invariant m == m0 + Index(s[..i])
    {
      assert s[..i + 1][..i] == s[..i];
      m := m[s[i].Key() := s[i]];
      i := i + 1;
    }
    assert s[..|s|] == s;
  }

  /**
   * The same loop over `Object.values` of the processing map, in whatever order the values
   * come: the result does not depend on that order because every entry sits under its own key.
   */
  method AccumulateProcessing(m0: map<string, Upload>, proc: map<string, SignedUpload>)
    returns (m: map<string, Upload>)
    requires forall k :: k in proc ==> proc[k].key == k
    ensures m == m0 + Lift(proc)
  {
    m := m0;
    var rest := proc.Keys;
    while rest != {}
      invariant rest <= proc.Keys
      invariant m == m0 + Lift(proc - rest)
      decreases rest
    {
      var k :| k in rest;
      var u := proc[k];
      assert Lift(proc - (rest - {k})) == Lift(proc - rest)[k := Signed(u)];
      m := m[u.key := Signed(u)];
      rest := rest - {k};
    }
    assert proc - rest == proc;
  }

  // ---------------------------------------------------------------------------------------
  // save: deduplication against the combined map

  /**
   * The `flatMap` of lines 78-82: each file whose name is not yet a key of `known` becomes an
   * unsigned upload keyed by that name. Files of one call are not compared with each other.
   */
  function Accepted(known: map<string, Upload>, files: seq<File>): seq<UnsignedUpload>
  {
    if files == [] then []
    else (if files[0].name in known then [] else [UnsignedUpload(files[0].name, files[0])])
         + Accepted(known, files[1..])
  }

  /** Deduplication distributes over concatenation: input order is kept. */
  lemma {:induction false} AcceptedAppend(known: map<string, Upload>, a: seq<File>, b: seq<File>)
    ensures Accepted(known, a + b) == Accepted(known, a) + Accepted(known, b)
  {
    if a == [] {
      assert a + b == b;
    } else {
      assert (a + b)[0] == a[0];
      assert (a + b)[1..] == a[1..] + b;
      AcceptedAppend(known, a[1..], b);
    }
  }

  /** A file is enqueued exactly when its name is not a key of the map; it is keyed by its name. */
  lemma {:induction false} AcceptedMembership(known: map<string, Upload>, files: seq<File>, u: UnsignedUpload)
    ensures u in Accepted(known, files) <==> u.file in files && u.key == u.file.name && u.key !in known
  {
    if files != [] {
      AcceptedMembership(known, files[1..], u);
      assert files == [files[0]] + files[1..];
    }
  }

  /** Two same-named files in one call both pass when the name is new. */
  lemma SameNameNotDeduped(f: File, g: File)
    requires f.name == g.name
    ensures Accepted(map[], [f, g]) == [UnsignedUpload(f.name, f), UnsignedUpload(g.name, g)]
  {
    assert [f, g][1..] == [g];
    assert [g][1..] == [];
    assert Accepted(map[], [g]) == [UnsignedUpload(g.name, g)];
  }

  /**
   * The names every plain JavaScript object answers through its prototype: looking one of
   * them up in a map built from `{}` yields a function, which is truthy.
   */
  const ObjectPrototypeNames: set<string> :=
    {"constructor", "hasOwnProperty", "isPrototypeOf", "propertyIsEnumerable", "toLocaleString",
     "toString", "valueOf", "__proto__", "__defineGetter__", "__defineSetter__",
     "__lookupGetter__", "__lookupSetter__"}

  /**
   * The `flatMap` of lines 78-82 as JavaScript evaluates `uploadMap[file.name]` on an object
   * literal: an inherited prototype name counts as present.
   */
  function AcceptedAsWritten(known: map<string, Upload>, files: seq<File>): seq<UnsignedUpload>
  {
    if files == [] then []
    else (if files[0].name in known || files[0].name in ObjectPrototypeNames then []
          else [UnsignedUpload(files[0].name, files[0])])
         + AcceptedAsWritten(known, files[1..])
  }

  /** Away from prototype names the code's lookup and the own-key lookup agree. */
  lemma {:induction false} AcceptedAsWrittenAgrees(known: map<string, Upload>, files: seq<File>)
    requires forall i :: 0 <= i < |files| ==> files[i].name !in ObjectPrototypeNames
    ensures AcceptedAsWritten(known, files) == Accepted(known, files)
  {
    if files != [] {
      AcceptedAsWrittenAgrees(known, files[1..]);
    }
  }

  /**
   * As written, a file is enqueued exactly when its name is neither a key of the map nor a
   * prototype name; it is keyed by its name.
   */
  lemma {:induction false} AcceptedAsWrittenMembership(known: map<string, Upload>, files: seq<File>, u: UnsignedUpload)
    ensures u in AcceptedAsWritten(known, files)
        <==> u.file in files && u.key == u.file.name && u.key !in known && u.key !in ObjectPrototypeNames
  {
    if files != [] {
      AcceptedAsWrittenMembership(known, files[1..], u);
      assert files == [files[0]] + files[1..];
    }
  }

  /**
   * As written, the accepted keys avoid the existing keys, and together with them they are
   * every input name that is not a prototype name, plus the existing keys.
   */
  lemma AcceptedAsWrittenFresh(known: map<string, Upload>, files: seq<File>)
    ensures KeysOf(Unsigneds(AcceptedAsWritten(known, files))) !! known.Keys
    ensures KeysOf(Unsigneds(AcceptedAsWritten(known, files))) + known.Keys
            == (set i | 0 <= i < |files| && files[i].name !in ObjectPrototypeNames :: files[i].name) + known.Keys
  {
    var r := AcceptedAsWritten(known, files);
    forall k | k in KeysOf(Unsigneds(r))
      ensures k !in known && k !in ObjectPrototypeNames && exists i :: 0 <= i < |files| && files[i].name == k
    {
      var i :| 0 <= i < |r| && Unsigneds(r)[i].Key() == k;
      AcceptedAsWrittenMembership(known, files, r[i]);
    }
    forall i | 0 <= i < |files| && files[i].name !in known && files[i].name !in ObjectPrototypeNames
      ensures files[i].name in KeysOf(Unsigneds(r))
    {
      var u := UnsignedUpload(files[i].name, files[i]);
      AcceptedAsWrittenMembership(known, files, u);
      var j :| 0 <= j < |r| && r[j] == u;
      assert Unsigneds(r)[j].Key() == u.key;
    }
  }

  /** A file named "constructor" is never enqueued by the code, even on an empty uploader. */
  lemma PrototypeNameDropped(f: File)
    requires f.name == "constructor"
    ensures AcceptedAsWritten(map[], [f]) == []
    ensures Accepted(map[], [f]) == [UnsignedUpload(f.name, f)]
  {
    assert [f][1..] == [];
  }

  /** The unsigned uploads created by a call keep the files in order and carry fresh keys only. */
  lemma {:induction false} AcceptedFresh(known: map<string, Upload>, files: seq<File>)
    ensures |Accepted(known, files)| <= |files|
    ensures KeysOf(Unsigneds(Accepted(known, files))) !! known.Keys
    ensures KeysOf(Unsigneds(Accepted(known, files))) + known.Keys
            == (set i | 0 <= i < |files| :: files[i].name) + known.Keys
  {
    var r := Accepted(known, files);
    forall k | k in KeysOf(Unsigneds(r))
      ensures k !in known && exists i :: 0 <= i < |files| && files[i].name == k
    {
      var i :| 0 <= i < |r| && Unsigneds(r)[i].Key() == k;
      AcceptedMembership(known, files, r[i]);
    }
    forall i | 0 <= i < |files| && files[i].name !in known
      ensures files[i].name in KeysOf(Unsigneds(r))
    {
      var u := UnsignedUpload(files[i].name, files[i]);
      AcceptedMembership(known, files, u);
      var j :| 0 <= j < |r| && r[j] == u;
      assert Unsigneds(r)[j].Key() == u.key;
    }
    if files != [] {
      AcceptedFresh(known, files[1..]);
    }
  }

  // ---------------------------------------------------------------------------------------
  // Credentials: the request descriptors, the file map and the pending uploads

  /**
   * The `reduce` of lines 148-165: one descriptor per unsigned upload, and a map from each
   * key to its file (a later upload with the same key overwrites an earlier one).
   */
  function BuildDescriptors(batch: seq<UnsignedUpload>): (seq<Descriptor>, map<string, File>)
  {
    if batch == [] then ([], map[])
    else
      var (ds, fileMap) := BuildDescriptors(batch[..|batch| - 1]);
      var last := batch[|batch| - 1];
      (ds + [Descriptor(last.key, last.file.mimeType, last.file.size)], fileMap[last.key := last.file])
  }

  /** Descriptor building yields exactly one `{key, type, size}` per upload, in the same order. */
  lemma {:induction false} DescriptorsInOrder(batch: seq<UnsignedUpload>)
    ensures |BuildDescriptors(batch).0| == |batch|
    ensures forall i :: 0 <= i < |batch| ==>
      BuildDescriptors(batch).0[i] == Descriptor(batch[i].key, batch[i].file.mimeType, batch[i].file.size)
  {
    if batch != [] {
      var init := batch[..|batch| - 1];
      DescriptorsInOrder(init);
      assert forall i :: 0 <= i < |init| ==> init[i] == batch[i];
    }
  }

  /**
   * The file map sends each key of the batch, and no other, to the file of the last upload
   * with that key.
   */
  lemma {:induction false} FileMapLatest(batch: seq<UnsignedUpload>, k: string)
    ensures k in BuildDescriptors(batch).1 <==> exists i :: 0 <= i < |batch| && batch[i].key == k
    ensures k in BuildDescriptors(batch).1 ==>
      exists i :: 0 <= i < |batch| && batch[i].key == k && BuildDescriptors(batch).1[k] == batch[i].file
                  && forall j :: i < j < |batch| ==> batch[j].key != k
  {
    FileMapKeys(batch, k);
    if batch != [] && k in BuildDescriptors(batch).1 {
      var n := |batch| - 1;
      var init := batch[..n];
      assert BuildDescriptors(batch).1 == BuildDescriptors(init).1[batch[n].key := batch[n].file];
      if k != batch[n].key {
        FileMapLatest(init, k);
        var i :| 0 <= i < |init| && init[i].key == k && BuildDescriptors(init).1[k] == init[i].file
                 && forall j :: i < j < |init| ==> init[j].key != k;
        assert batch[i] == init[i];
        forall j | i < j < |batch| ensures batch[j].key != k {
          if j < n {
            assert batch[j] == init[j];
          }
        }
      }
    }
  }

  /** The file map's keys are the batch's keys. */
  lemma {:induction false} FileMapKeys(batch: seq<UnsignedUpload>, k: string)
    ensures k in BuildDescriptors(batch).1 <==> exists i :: 0 <= i < |batch| && batch[i].key == k
  {
    if batch != [] {
      var n := |batch| - 1;
      var init := batch[..n];
      FileMapKeys(init, k);
      assert BuildDescriptors(batch).1 == BuildDescriptors(init).1[batch[n].key := batch[n].file];
      if k in BuildDescriptors(init).1 {
        var i :| 0 <= i < |init| && init[i].key == k;
        assert batch[i] == init[i];
      }
      if exists i :: 0 <= i < |batch| && batch[i].key == k {
        var i :| 0 <= i < |batch| && batch[i].key == k;
        if i < n {
          assert init[i] == batch[i];
        }
      }
    }
  }

  function FileFor(fileMap: map<string, File>, key: string): Option<File>
  {
    if key in fileMap then Some(fileMap[key]) else None
  }

  /** The `.map` of lines 169-174: each record becomes a pending upload with its file looked up by key. */
  function ToPending(records: seq<SignedRecord>, fileMap: map<string, File>): seq<SignedUpload>
  {
    seq(|records|, i requires 0 <= i < |records| =>
      var r := records[i];
      SignedUpload(r.id, r.key, r.url, r.headers, FileFor(fileMap, r.key), Pending))
  }

  /** The record a signed upload was made from. */
  function RecordOf(u: SignedUpload): SignedRecord
  {
    SignedRecord(u.id, u.key, u.url, u.headers)
  }

  /**
   * Every record becomes one pending upload, in order, that gives the record back; its file is
   * the batch's file for that key when the key was sent, and absent otherwise.
   */
  lemma ToPendingSpec(batch: seq<UnsignedUpload>, records: seq<SignedRecord>)
    ensures var ps := ToPending(records, BuildDescriptors(batch).1);
      && |ps| == |records|
      && (forall i :: 0 <= i < |records| ==> RecordOf(ps[i]) == records[i] && ps[i].state == Pending)
      && (forall i :: 0 <= i < |records| ==>
            (ps[i].file.Some? <==> exists j :: 0 <= j < |batch| && batch[j].key == records[i].key))
      && (forall i, j ::
            (0 <= i < |records| && 0 <= j < |batch| && batch[j].key == records[i].key
             && (forall l :: j < l < |batch| ==> batch[l].key != records[i].key))
            ==> ps[i].file == Some(batch[j].file))
  {
    var fileMap := BuildDescriptors(batch).1;
    forall i | 0 <= i < |records|
      ensures records[i].key in fileMap <==> exists j :: 0 <= j < |batch| && batch[j].key == records[i].key
    {
      FileMapLatest(batch, records[i].key);
    }
    forall i, j | 0 <= i < |records| && 0 <= j < |batch| && batch[j].key == records[i].key &&
        (forall l :: j < l < |batch| ==> batch[l].key != records[i].key)
      ensures fileMap[records[i].key] == batch[j].file
    {
      var k := records[i].key;
      FileMapLatest(batch, k);
      var j' :| 0 <= j' < |batch| && batch[j'].key == k && fileMap[k] == batch[j'].file &&
        forall l :: j' < l < |batch| ==> batch[l].key != k;
      assert j' == j;
    }
  }

  // ---------------------------------------------------------------------------------------
  // Transfers: progress, settlement and partition

  /**
   * The percentage of lines 203-205: 0 when `total` is 0 or missing, otherwise the quotient is
   * floored BEFORE it is multiplied by 100, so it is 0 until `loaded` reaches `total`.
   */
  function PercentCompleted(loaded: nat, total: Option<nat>): (r: int)
    ensures r >= 0 && r % 100 == 0
    ensures (total.None? || total.value == 0) ==> r == 0
    ensures total.Some? && loaded < total.value ==> r == 0
    ensures total.Some? && 0 < total.value <= loaded < 2 * total.value ==> r == 100
    ensures total.Some? && loaded <= total.value ==> r <= 100 && (r == 100 <==> 0 < loaded == total.value)
  {
    if total.None? || total.value == 0 then 0 else (loaded / total.value) * 100
  }

  /** The percentage the transfer client is meant to report: floor(loaded / total * 100). */
  function PercentIntended(loaded: nat, total: Option<nat>): (r: int)
    ensures (total.None? || total.value == 0) ==> r == 0
    ensures total.Some? && loaded <= total.value ==> 0 <= r <= 100 && (r == 100 <==> 0 < loaded == total.value)
    ensures total.Some? && total.value > 0 ==> r * total.value <= loaded * 100 < (r + 1) * total.value
  {
    if total.None? || total.value == 0 then 0
    else
      DivBounds(loaded * 100, total.value);
      ShareBounds(loaded, total.value, (loaded * 100) / total.value);
      (loaded * 100) / total.value
  }

  /** The quotient brackets the dividend. */
  lemma DivBounds(n: nat, t: nat)
    requires t > 0
    ensures (n / t) * t <= n < (n / t + 1) * t
  {
    var q, m := n / t, n % t;
    assert n == q * t + m;
    assert (q + 1) * t == q * t + t;
  }

  /** A bracketing quotient of `loaded * 100` by `total` is a share in 0..100, and 100 only at completion. */
  lemma ShareBounds(loaded: nat, total: nat, r: int)
    requires total > 0 && r * total <= loaded * 100 < (r + 1) * total
    ensures loaded <= total ==> 0 <= r <= 100 && (r == 100 <==> loaded == total)
  {
    if loaded <= total {
      assert loaded * 100 <= total * 100;
      MulCancel(-1, r, total);
      MulCancel(r, 101, total);
      if r == 100 {
        MulCancel(total, loaded + 1, 100);
      }
      if loaded == total {
        MulCancel(99, r, total);
      }
    }
  }

  /** Half-way through a transfer the code reports 0 where 50 is meant. */
  lemma PercentFloorsTooEarly()
    ensures PercentCompleted(1, Some(2)) == 0
    ensures PercentIntended(1, Some(2)) == 50
  {
  }

  /** The intended percentage never decreases as more bytes are sent. */
  lemma PercentIntendedMonotone(a: nat, b: nat, total: nat)
    requires a <= b <= total
    ensures PercentIntended(a, Some(total)) <= PercentIntended(b, Some(total))
  {
    if total > 0 {
      var pa, pb := PercentIntended(a, Some(total)), PercentIntended(b, Some(total));
      assert pa * total < (pb + 1) * total;
      MulCancel(pa, pb + 1, total);
    }
  }

  lemma MulCancel(x: int, y: int, c: nat)
    requires x * c < y * c
    ensures x < y
  {
  }

  /**
   * Lines 197-222: every transfer settles once, fulfilled with the upload marked
   * "successful" when `ok[i]` holds, rejected with it marked "failed" otherwise.
   */
  function Outcomes(batch: seq<SignedUpload>, ok: seq<bool>): (r: seq<SettledResult>)
    requires |ok| == |batch|
    ensures |r| == |batch|
    ensures forall i :: 0 <= i < |batch| ==>
      r[i] == if ok[i] then Fulfilled(batch[i].(state := Successful)) else Rejected(batch[i].(state := Failed))
  {
    seq(|batch|, i requires 0 <= i < |batch| =>
      if ok[i] then Fulfilled(batch[i].(state := Successful)) else Rejected(batch[i].(state := Failed)))
  }

  /** The values of the fulfilled results, in order. */
  function FulfilledValues(rs: seq<SettledResult>): seq<SignedUpload>
  {
    if rs == [] then []
    else FulfilledValues(rs[..|rs| - 1]) + (if rs[|rs| - 1].Fulfilled? then [rs[|rs| - 1].value] else [])
  }

  /** The reasons of the rejected results, in order. */
  function RejectedReasons(rs: seq<SettledResult>): seq<SignedUpload>
  {
    if rs == [] then []
    else RejectedReasons(rs[..|rs| - 1]) + (if rs[|rs| - 1].Rejected? then [rs[|rs| - 1].reason] else [])
  }

  /** The `reduce` of lines 224-234, pushing each result onto the list its status selects. */
  method Partition(rs: seq<SettledResult>) returns (successful: seq<SignedUpload>, failed: seq<SignedUpload>)
    ensures successful == FulfilledValues(rs) && failed == RejectedReasons(rs)
  {
    successful, failed := [], [];
    var i := 0;
    while i < |rs|
      invariant 0 <= i <= |rs|
      invariant successful == FulfilledValues(rs[..i]) && failed == RejectedReasons(rs[..i])
    {
      assert rs[..i + 1][..i] == rs[..i];
      if rs[i].Fulfilled? {
        successful := successful + [rs[i].value];
      } else {
        failed := failed + [rs[i].reason];
      }
      i := i + 1;
    }
    assert rs[..|rs|] == rs;
  }

  /** Partitioning loses and invents nothing: the two lists together are as long as the input. */
  lemma {:induction false} PartitionCounts(rs: seq<SettledResult>)
    ensures |FulfilledValues(rs)| + |RejectedReasons(rs)| == |rs|
  {
    if rs != [] {
      PartitionCounts(rs[..|rs| - 1]);
    }
  }

  /** Partitioning a concatenation partitions each part, keeping input order. */
  lemma {:induction false} PartitionAppend(a: seq<SettledResult>, b: seq<SettledResult>)
    ensures FulfilledValues(a + b) == FulfilledValues(a) + FulfilledValues(b)
    ensures RejectedReasons(a + b) == RejectedReasons(a) + RejectedReasons(b)
  {
    if b == [] {
      assert a + b == a;
    } else {
      assert (a + b)[..|a + b| - 1] == a + b[..|b| - 1];
      PartitionAppend(a, b[..|b| - 1]);
    }
  }

  /**
   * Settling a batch: the successful list holds exactly the batch entries whose transfer
   * succeeded, the failed list exactly the others, each equal to its input but for `state`.
   */
  lemma {:induction false} PartitionOfOutcomes(batch: seq<SignedUpload>, ok: seq<bool>, u: SignedUpload)
    requires |ok| == |batch|
    ensures u in FulfilledValues(Outcomes(batch, ok)) <==>
      exists i :: 0 <= i < |batch| && ok[i] && u == batch[i].(state := Successful)
    ensures u in RejectedReasons(Outcomes(batch, ok)) <==>
      exists i :: 0 <= i < |batch| && !ok[i] && u == batch[i].(state := Failed)
  {
    FulfilledOfOutcomes(batch, ok, u);
    RejectedOfOutcomes(batch, ok, u);
  }

  lemma {:induction false} FulfilledOfOutcomes(batch: seq<SignedUpload>, ok: seq<bool>, u: SignedUpload)
    requires |ok| == |batch|
    ensures u in FulfilledValues(Outcomes(batch, ok)) <==>
      exists i :: 0 <= i < |batch| && ok[i] && u == batch[i].(state := Successful)
  {
    if batch != [] {
      var n := |batch| - 1;
      var rs := Outcomes(batch, ok);
      FulfilledOfOutcomes(batch[..n], ok[..n], u);
      assert rs[..n] == Outcomes(batch[..n], ok[..n]);
      assert FulfilledValues(rs) == FulfilledValues(rs[..n]) + (if rs[n].Fulfilled? then [rs[n].value] else []);
      forall i | 0 <= i < n ensures batch[..n][i] == batch[i] && ok[..n][i] == ok[i] { }
    }
  }

  lemma {:induction false} RejectedOfOutcomes(batch: seq<SignedUpload>, ok: seq<bool>, u: SignedUpload)
    requires |ok| == |batch|
    ensures u in RejectedReasons(Outcomes(batch, ok)) <==>
      exists i :: 0 <= i < |batch| && !ok[i] && u == batch[i].(state := Failed)
  {
    if batch != [] {
      var n := |batch| - 1;
      var rs := Outcomes(batch, ok);
      RejectedOfOutcomes(batch[..n], ok[..n], u);
      assert rs[..n] == Outcomes(batch[..n], ok[..n]);
      assert RejectedReasons(rs) == RejectedReasons(rs[..n]) + (if rs[n].Rejected? then [rs[n].reason] else []);
      forall i | 0 <= i < n ensures batch[..n][i] == batch[i] && ok[..n][i] == ok[i] { }
    }
  }

  /** The number of successful uploads is the number of transfers that succeeded. */
  lemma {:induction false} SuccessCount(batch: seq<SignedUpload>, ok: seq<bool>)
    requires |ok| == |batch|
    ensures |FulfilledValues(Outcomes(batch, ok))| == |set i | 0 <= i < |ok| && ok[i]|
  {
    if batch != [] {
      var n := |batch| - 1;
      SuccessCount(batch[..n], ok[..n]);
      OutcomesInit(batch, ok);
      TrueIndicesStep(ok);
      var prev := set i | 0 <= i < n && ok[i];
      PrefixIndices(ok, n);
      if ok[n] {
        assert n !in prev;
        assert |prev + {n}| == |prev| + 1;
      }
    }
  }

  /** The outcomes of all but the last transfer are the outcomes of that shorter batch. */
  lemma OutcomesInit(batch: seq<SignedUpload>, ok: seq<bool>)
    requires |ok| == |batch| && batch != []
    ensures Outcomes(batch, ok)[..|batch| - 1] == Outcomes(batch[..|batch| - 1], ok[..|batch| - 1])
  {
  }

  /** The succeeded positions of a prefix are those of the whole below its length. */
  lemma PrefixIndices(ok: seq<bool>, n: nat)
    requires n <= |ok|
    ensures (set i | 0 <= i < n && ok[..n][i]) == (set i | 0 <= i < n && ok[i])
  {
  }

  /** The succeeded positions are those of all but the last transfer, plus the last if it succeeded. */
  lemma TrueIndicesStep(ok: seq<bool>)
    requires ok != []
    ensures (set i | 0 <= i < |ok| && ok[i])
         == (set i | 0 <= i < |ok| - 1 && ok[i]) + (if ok[|ok| - 1] then {|ok| - 1} else {})
  {
  }


  /** The keys of a list of signed uploads. */
  function SignedKeys(s: seq<SignedUpload>): set<string>
  {
    set i | 0 <= i < |s| :: s[i].key
  }

  /** Lines 109-113: copy the processing map, then `delete` the key of every settled upload. */
  method RemoveSettled(prev: map<string, SignedUpload>, settled: seq<SignedUpload>)
    returns (next: map<string, SignedUpload>)
    ensures next.Keys == prev.Keys - SignedKeys(settled)
    ensures forall k :: k in next ==> next[k] == prev[k]
  {
    next := prev;
    var i := 0;
    while i < |settled|
      invariant 0 <= i <= |settled|
      invariant next.Keys == prev.Keys - SignedKeys(settled[..i])
      invariant forall k :: k in next ==> next[k] == prev[k]
    {
      assert SignedKeys(settled[..i + 1]) == SignedKeys(settled[..i]) + {settled[i].key} by {
        assert forall j :: 0 <= j < i ==> settled[..i + 1][j] == settled[..i][j];
      }
      next := next - {settled[i].key};
      i := i + 1;
    }
    assert settled[..|settled|] == settled;
  }

  /** Line 244: the confirmation payload, the ids of the successful uploads in list order. */
  function ConfirmIds(successful: seq<SignedUpload>): (ids: seq<int>)
    ensures |ids| == |successful|
    ensures forall i :: 0 <= i < |ids| ==> ids[i] == successful[i].id
  {
    if successful == [] then [] else [successful[0].id] + ConfirmIds(successful[1..])
  }

  /** The payload after more uploads succeed extends the previous payload by their ids. */
  lemma ConfirmIdsAppend(a: seq<SignedUpload>, b: seq<SignedUpload>)
    ensures ConfirmIds(a + b) == ConfirmIds(a) + ConfirmIds(b)
  {
  }

  /** Inserting a map of fresh keys below the others adds its keys and changes no other entry. */
  lemma InsertFresh<K, V>(known: map<K, V>, after: map<K, V>,
                          a: map<K, V>, x: map<K, V>, b: map<K, V>, c: map<K, V>, d: map<K, V>, e: map<K, V>,
                          names: set<K>)
    requires known == a + b + c + d + e && after == a + x + b + c + d + e
    requires x.Keys !! known.Keys && x.Keys + known.Keys == names + known.Keys
    ensures after.Keys == known.Keys + names
    ensures forall k :: k in known ==> after[k] == known[k]
  {
  }

  /** Appending to the unsigned queue inserts the new entries just above the old unsigned ones. */
  lemma CombineAppendUnsigned(u: seq<UnsignedUpload>, added: seq<UnsignedUpload>, p: seq<SignedUpload>,
                              proc: map<string, SignedUpload>, s: seq<SignedUpload>, f: seq<SignedUpload>)
    ensures Combine(u + added, p, proc, s, f)
         == Index(Unsigneds(u)) + Index(Unsigneds(added)) + Index(Signeds(p)) + Lift(proc)
            + Index(Signeds(s)) + Index(Signeds(f))
  {
    UnsignedsAppend(u, added);
    IndexAppend(Unsigneds(u), Unsigneds(added));
  }

  /** The uploads `save` accepts as written have fresh keys and cover every non-prototype name. */
  lemma AcceptedAsWrittenIndexKeys(known: map<string, Upload>, files: seq<File>)
    ensures Index(Unsigneds(AcceptedAsWritten(known, files))).Keys !! known.Keys
    ensures Index(Unsigneds(AcceptedAsWritten(known, files))).Keys + known.Keys
         == (set i | 0 <= i < |files| && files[i].name !in ObjectPrototypeNames :: files[i].name) + known.Keys
  {
    AcceptedAsWrittenFresh(known, files);
    IndexKeys(Unsigneds(AcceptedAsWritten(known, files)));
  }

  /** The uploads the corrected `save` accepts have fresh keys and cover every name. */
  lemma AcceptedIndexKeys(known: map<string, Upload>, files: seq<File>)
    ensures Index(Unsigneds(Accepted(known, files))).Keys !! known.Keys
    ensures Index(Unsigneds(Accepted(known, files))).Keys + known.Keys
         == (set i | 0 <= i < |files| :: files[i].name) + known.Keys
  {
    AcceptedFresh(known, files);
    IndexKeys(Unsigneds(Accepted(known, files)));
  }

  /**
   * What `save` does to the combined map as written: every chosen name that is not a prototype
   * name becomes a key (a prototype name is dropped unless it already was one), and the entry
   * of every key already present is unchanged.
   */
  lemma SaveEffect(u: seq<UnsignedUpload>, p: seq<SignedUpload>, proc: map<string, SignedUpload>,
                   s: seq<SignedUpload>, f: seq<SignedUpload>, files: seq<File>)
    ensures var known := Combine(u, p, proc, s, f);
      var after := Combine(u + AcceptedAsWritten(known, files), p, proc, s, f);
      && after.Keys == known.Keys + (set i | 0 <= i < |files| && files[i].name !in ObjectPrototypeNames :: files[i].name)
      && forall k :: k in known ==> after[k] == known[k]
  {
    var known := Combine(u, p, proc, s, f);
    var added := AcceptedAsWritten(known, files);
    var after := Combine(u + added, p, proc, s, f);
    AcceptedAsWrittenIndexKeys(known, files);
    CombineAppendUnsigned(u, added, p, proc, s, f);
    InsertFresh(known, after, Index(Unsigneds(u)), Index(Unsigneds(added)), Index(Signeds(p)), Lift(proc),
                Index(Signeds(s)), Index(Signeds(f)),
                set i | 0 <= i < |files| && files[i].name !in ObjectPrototypeNames :: files[i].name);
  }

  /**
   * What the corrected `save` does to the combined map: every chosen name becomes a key, and
   * the entry of every key already present is unchanged.
   */
  lemma SaveEffectOwnKeys(u: seq<UnsignedUpload>, p: seq<SignedUpload>, proc: map<string, SignedUpload>,
                          s: seq<SignedUpload>, f: seq<SignedUpload>, files: seq<File>)
    ensures var known := Combine(u, p, proc, s, f);
      var after := Combine(u + Accepted(known, files), p, proc, s, f);
      && after.Keys == known.Keys + (set i | 0 <= i < |files| :: files[i].name)
      && forall k :: k in known ==> after[k] == known[k]
  {
    var known := Combine(u, p, proc, s, f);
    var added := Accepted(known, files);
    var after := Combine(u + added, p, proc, s, f);
    AcceptedIndexKeys(known, files);
    CombineAppendUnsigned(u, added, p, proc, s, f);
    InsertFresh(known, after, Index(Unsigneds(u)), Index(Unsigneds(added)), Index(Signeds(p)), Lift(proc),
                Index(Signeds(s)), Index(Signeds(f)), set i | 0 <= i < |files| :: files[i].name);
  }

  // ---------------------------------------------------------------------------------------
  // The uploader state

  class Uploader {
    var unsignedQueue: seq<UnsignedUpload>
    var pendingQueue: seq<SignedUpload>
    var processing: map<string, SignedUpload>
    var successfulUploads: seq<SignedUpload>
    var failedUploads: seq<SignedUpload>
    var error: Option<string>

    /** Each collection holds uploads of its own state; processing entries sit under their key. */
    ghost predicate Valid()
      reads this
    {
      && (forall i :: 0 <= i < |pendingQueue| ==> pendingQueue[i].state == Pending)
      && (forall k :: k in processing ==> processing[k].key == k && processing[k].state.Processing?)
      && (forall i :: 0 <= i < |successfulUploads| ==> successfulUploads[i].state == Successful)
      && (forall i :: 0 <= i < |failedUploads| ==> failedUploads[i].state == Failed)
    }

    constructor ()
      ensures Valid()
      ensures unsignedQueue == [] && pendingQueue == [] && processing == map[]
      ensures successfulUploads == [] && failedUploads == [] && error == None
    {
      unsignedQueue, pendingQueue, processing := [], [], map[];
      successfulUploads, failedUploads, error := [], [], None;
    }

    function UploadMap(): map<string, Upload>
      reads this
    {
      Combine(unsignedQueue, pendingQueue, processing, successfulUploads, failedUploads)
    }

    /**
     * Lines 55-66 as the code runs them: the five collections concatenated (processing in
     * whatever order its values come) and folded entry by entry into one map.
     */
    method ComputeUploadMap() returns (m: map<string, Upload>)
      requires Valid()
      ensures m == UploadMap()
    {
      m := Accumulate(map[], Unsigneds(unsignedQueue) + Signeds(pendingQueue));
      IndexAppend(Unsigneds(unsignedQueue), Signeds(pendingQueue));
      m := AccumulateProcessing(m, processing);
      m := Accumulate(m, Signeds(successfulUploads) + Signeds(failedUploads));
      IndexAppend(Signeds(successfulUploads), Signeds(failedUploads));
      Regroup(Index(Unsigneds(unsignedQueue)), Index(Signeds(pendingQueue)), Lift(processing),
              Index(Signeds(successfulUploads)), Index(Signeds(failedUploads)));
    }

    /** The snapshot handed to the UI: every entry of the combined map, order unspecified. */
    function Uploads(): set<Upload>
      reads this
    {
      UploadMap().Values
    }

    /**
     * `save` (lines 76-86) as written: files whose name the combined map answers, as an own key
     * or through `Object.prototype`, are dropped; the rest are appended to the unsigned queue in
     * input order. Every chosen name that is not a prototype name is a key afterwards, and no
     * existing entry of the map changes.
     */
    method Save(files: seq<File>)
      requires Valid()
      modifies this
      ensures Valid()
      ensures unsignedQueue == old(unsignedQueue) + AcceptedAsWritten(old(UploadMap()), files)
      ensures pendingQueue == old(pendingQueue) && processing == old(processing)
      ensures successfulUploads == old(successfulUploads) && failedUploads == old(failedUploads)
      ensures error == old(error)
      ensures UploadMap().Keys == old(UploadMap()).Keys
                + (set i | 0 <= i < |files| && files[i].name !in ObjectPrototypeNames :: files[i].name)
      ensures forall k :: k in old(UploadMap()) ==> UploadMap()[k] == old(UploadMap())[k]
    {
      var known := UploadMap();
      var added := AcceptedAsWritten(known, files);
      SaveEffect(unsignedQueue, pendingQueue, processing, successfulUploads, failedUploads, files);
      unsignedQueue := unsignedQueue + added;
    }

    /**
     * `save` as evidently intended: only names already held as own keys of the combined map
     * are dropped, so every chosen name is a key afterwards.
     */
    method SaveOwnKeys(files: seq<File>)
      requires Valid()
      modifies this
      ensures Valid()
      ensures unsignedQueue == old(unsignedQueue) + Accepted(old(UploadMap()), files)
      ensures pendingQueue == old(pendingQueue) && processing == old(processing)
      ensures successfulUploads == old(successfulUploads) && failedUploads == old(failedUploads)
      ensures error == old(error)
      ensures UploadMap().Keys == old(UploadMap()).Keys + (set i | 0 <= i < |files| :: files[i].name)
      ensures forall k :: k in old(UploadMap()) ==> UploadMap()[k] == old(UploadMap())[k]
    {
      var known := UploadMap();
      var added := Accepted(known, files);
      SaveEffectOwnKeys(unsignedQueue, pendingQueue, processing, successfulUploads, failedUploads, files);
      unsignedQueue := unsignedQueue + added;
    }

    /**
     * The credential reaction (lines 88-96) for the batch `batch` the effect sent (the unsigned
     * queue at that moment): on success every record is appended to the pending queue as a
     * pending upload; a failure only sets `error`. The unsigned queue is left as it was, so the
     * signed uploads stay in it (the combined map hides them behind their pending entries).
     */
    method OnSigned(batch: seq<UnsignedUpload>, response: Result<seq<SignedRecord>, Thrown>)
      requires Valid()
      modifies this
      ensures Valid()
      ensures response.Ok? ==> pendingQueue == old(pendingQueue) + ToPending(response.value, BuildDescriptors(batch).1)
      ensures response.Ok? ==> error == old(error)
      ensures response.Err? ==> pendingQueue == old(pendingQueue) && error == Some(ErrorMessage(response.error))
      ensures unsignedQueue == old(unsignedQueue) && processing == old(processing)
      ensures successfulUploads == old(successfulUploads) && failedUploads == old(failedUploads)
    {
      match response
      case Ok(records) =>
        var (_, fileMap) := BuildDescriptors(batch);
        pendingQueue := pendingQueue + ToPending(records, fileMap);
      case Err(thrown) =>
        error := Some(ErrorMessage(thrown));
    }

    /**
     * The credential reaction as evidently intended: uploads that received credentials leave
     * the unsigned queue, so a later request never asks for them again.
     */
    method OnSignedDraining(batch: seq<UnsignedUpload>, response: Result<seq<SignedRecord>, Thrown>)
      requires Valid()
      modifies this
      ensures Valid()
      ensures response.Ok? ==> pendingQueue == old(pendingQueue) + ToPending(response.value, BuildDescriptors(batch).1)
      ensures response.Ok? ==> unsignedQueue == WithoutKeys(old(unsignedQueue), RecordKeys(response.value))
      ensures response.Ok? ==> error == old(error)
      ensures response.Err? ==> pendingQueue == old(pendingQueue) && unsignedQueue == old(unsignedQueue)
      ensures response.Err? ==> error == Some(ErrorMessage(response.error))
      ensures processing == old(processing)
      ensures successfulUploads == old(successfulUploads) && failedUploads == old(failedUploads)
    {
      match response
      case Ok(records) =>
        var (_, fileMap) := BuildDescriptors(batch);
        pendingQueue := pendingQueue + ToPending(records, fileMap);
        unsignedQueue := WithoutKeys(unsignedQueue, RecordKeys(records));
      case Err(thrown) =>
        error := Some(ErrorMessage(thrown));
    }

    /**
     * The progress updater (lines 100-105): only `key`'s progress changes, and an absent key
     * leaves the map as it was (always the case here: nothing inserts into the processing map).
     */
    method OnProgress(key: string, progress: int)
      requires Valid()
      modifies this
      ensures Valid()
      ensures key in old(processing) ==> processing == old(processing)[key := old(processing)[key].(state := Processing(progress))]
      ensures key !in old(processing) ==> processing == old(processing)
      ensures forall k :: k in processing && k != key ==> processing[k] == old(processing)[k]
      ensures unsignedQueue == old(unsignedQueue) && pendingQueue == old(pendingQueue)
      ensures successfulUploads == old(successfulUploads) && failedUploads == old(failedUploads)
      ensures error == old(error)
    {
      if key in processing {
        var upload := processing[key];
        processing := processing[key := upload.(state := Processing(progress))];
      }
    }

    /**
     * Settlement of a transfer batch (lines 107-119): `batch` is the pending queue the effect
     * started with and `ok[i]` whether its i-th transfer succeeded. The settled keys leave the
     * processing map, the outcomes are appended to the successful and failed lists, and the
     * pending queue is emptied.
     */
    method Settle(batch: seq<SignedUpload>, ok: seq<bool>)
      requires Valid()
      requires |ok| == |batch|
      modifies this
      ensures Valid()
      ensures successfulUploads == old(successfulUploads) + FulfilledValues(Outcomes(batch, ok))
      ensures failedUploads == old(failedUploads) + RejectedReasons(Outcomes(batch, ok))
      ensures processing.Keys == old(processing).Keys - SignedKeys(batch)
      ensures forall k :: k in processing ==> processing[k] == old(processing)[k]
      ensures pendingQueue == [] && unsignedQueue == old(unsignedQueue) && error == old(error)
      ensures ConfirmIds(successfulUploads) == old(ConfirmIds(successfulUploads)) + ConfirmIds(FulfilledValues(Outcomes(batch, ok)))
    {
      var results := Outcomes(batch, ok);
      var succeeded, failed := Partition(results);
      SettledKeys(batch, ok);
      var next := RemoveSettled(processing, succeeded + failed);
      SettledStates(batch, ok);
      processing := next;
      ConfirmIdsAppend(successfulUploads, succeeded);
      successfulUploads := successfulUploads + succeeded;
      failedUploads := failedUploads + failed;
      pendingQueue := [];
    }

    /** The confirmation reaction (lines 122-128): the ids of every successful upload so far. */
    method ConfirmPayload() returns (ids: seq<int>)
      ensures |ids| == |successfulUploads|
      ensures forall i :: 0 <= i < |ids| ==> ids[i] == successfulUploads[i].id
    {
      ids := ConfirmIds(successfulUploads);
    }

    /** A failed confirmation call (lines 124-126, 245-252) only sets `error`. */
    method OnConfirmFailed(thrown: Thrown)
      requires Valid()
      modifies this`error
      ensures Valid()
      ensures error == Some(ErrorMessage(thrown))
    {
      error := Some(ErrorMessage(thrown));
    }
  }

  /** The keys the settled uploads carry are exactly the batch's keys. */
  lemma SettledKeys(batch: seq<SignedUpload>, ok: seq<bool>)
    requires |ok| == |batch|
    ensures SignedKeys(FulfilledValues(Outcomes(batch, ok)) + RejectedReasons(Outcomes(batch, ok))) == SignedKeys(batch)
  {
    var s: seq<SignedUpload> := FulfilledValues(Outcomes(batch, ok));
    var f: seq<SignedUpload> := RejectedReasons(Outcomes(batch, ok));
    forall k | k in SignedKeys(s + f) ensures k in SignedKeys(batch) {
      var j :| 0 <= j < |s + f| && (s + f)[j].key == k;
      var u := (s + f)[j];
      if j < |s| {
        assert u in s;
        PartitionOfOutcomes(batch, ok, u);
      } else {
        assert u in f;
        PartitionOfOutcomes(batch, ok, u);
      }
    }
    forall k | k in SignedKeys(batch) ensures k in SignedKeys(s + f) {
      var i :| 0 <= i < |batch| && batch[i].key == k;
      var u := if ok[i] then batch[i].(state := Successful) else batch[i].(state := Failed);
      PartitionOfOutcomes(batch, ok, u);
      if ok[i] {
        var j :| 0 <= j < |s| && s[j] == u;
        assert (s + f)[j].key == k;
      } else {
        var j :| 0 <= j < |f| && f[j] == u;
        assert (s + f)[|s| + j].key == k;
      }
    }
  }

  /** Successful and failed results carry the state their list promises. */
  lemma SettledStates(batch: seq<SignedUpload>, ok: seq<bool>)
    requires |ok| == |batch|
    ensures forall u :: u in FulfilledValues(Outcomes(batch, ok)) ==> u.state == Successful
    ensures forall u :: u in RejectedReasons(Outcomes(batch, ok)) ==> u.state == Failed
  {
    forall u | u in FulfilledValues(Outcomes(batch, ok)) ensures u.state == Successful {
      PartitionOfOutcomes(batch, ok, u);
    }
    forall u | u in RejectedReasons(Outcomes(batch, ok)) ensures u.state == Failed {
      PartitionOfOutcomes(batch, ok, u);
    }
  }

  function RecordKeys(records: seq<SignedRecord>): set<string>
  {
    set i | 0 <= i < |records| :: records[i].key
  }

  /** The unsigned uploads whose key is not in `keys`, in order. */
  function WithoutKeys(q: seq<UnsignedUpload>, keys: set<string>): seq<UnsignedUpload>
  {
    if q == [] then []
    else (if q[0].key in keys then [] else [q[0]]) + WithoutKeys(q[1..], keys)
  }

  /** An upload stays queued after the drain exactly when it was queued and its key not signed. */
  lemma {:induction false} WithoutKeysMembers(q: seq<UnsignedUpload>, keys: set<string>, u: UnsignedUpload)
    ensures u in WithoutKeys(q, keys) <==> u in q && u.key !in keys
  {
    if q != [] {
      WithoutKeysMembers(q[1..], keys, u);
      assert q == [q[0]] + q[1..];
    }
  }

  /** The drain distributes over concatenation, so the uploads left keep their queue order. */
  lemma {:induction false} WithoutKeysAppend(a: seq<UnsignedUpload>, b: seq<UnsignedUpload>, keys: set<string>)
    ensures WithoutKeys(a + b, keys) == WithoutKeys(a, keys) + WithoutKeys(b, keys)
  {
    if a == [] {
      assert a + b == b;
    } else {
      assert (a + b)[0] == a[0];
      assert (a + b)[1..] == a[1..] + b;
      WithoutKeysAppend(a[1..], b, keys);
    }
  }

  // ---------------------------------------------------------------------------------------
  // Two saves in a row: what the second credential request asks for

  function DescriptorOf(f: File): Descriptor
  {
    Descriptor(f.name, f.mimeType, f.size)
  }

  /**
   * The first round of the scenarios below: `a` is saved on a fresh uploader, the sign effect
   * asks for its credentials, and its transfer succeeds. With `drain` the corrected credential
   * reaction runs, otherwise the one the code has.
   */
  method FirstRound(a: File, url: string, headers: Headers, drain: bool)
    returns (up: Uploader, firstRequest: seq<Descriptor>)
    requires a.name !in ObjectPrototypeNames
    ensures fresh(up) && up.Valid()
    ensures firstRequest == [DescriptorOf(a)]
    ensures up.unsignedQueue == (if drain then [] else [UnsignedUpload(a.name, a)])
    ensures up.pendingQueue == [] && up.processing == map[] && up.failedUploads == []
    ensures up.successfulUploads == [SignedUpload(1, a.name, url, headers, Some(a), Successful)]
  {
    var ua := UnsignedUpload(a.name, a);
    var record := SignedRecord(1, a.name, url, headers);
    up := new Uploader();
    EmptyCombine();
    AcceptOne(map[], a);
    up.Save([a]);
    assert up.unsignedQueue == [ua];
    firstRequest := BuildDescriptors(up.unsignedQueue).0;
    SignOne(ua, record);
    if drain {
      up.OnSignedDraining(up.unsignedQueue, Ok([record]));
      DrainOne(ua, record);
    } else {
      up.OnSigned(up.unsignedQueue, Ok([record]));
    }
    var pa := SignedUpload(1, a.name, url, headers, Some(a), Pending);
    assert up.pendingQueue == [pa];
    up.Settle(up.pendingQueue, [true]);
    SettleOne(pa);
  }

  /**
   * `a` is saved, signed, transferred and settled; then `b` is saved. The sign effect runs on
   * the whole unsigned queue each time it changes, and the code never removes signed uploads
   * from that queue, so the second request asks for credentials for `a` again.
   */
  method ResignScenario(a: File, b: File, url: string, headers: Headers)
    returns (firstRequest: seq<Descriptor>, secondRequest: seq<Descriptor>)
    requires a.name != b.name && a.name !in ObjectPrototypeNames && b.name !in ObjectPrototypeNames
    ensures firstRequest == [DescriptorOf(a)]
    ensures secondRequest == [DescriptorOf(a), DescriptorOf(b)]
  {
    var up;
    up, firstRequest := FirstRound(a, url, headers, false);
    var ua, ub := UnsignedUpload(a.name, a), UnsignedUpload(b.name, b);
    SettledCombine(ua, up.successfulUploads[0], b.name);
    AcceptOne(up.UploadMap(), b);
    up.Save([b]);
    assert up.unsignedQueue == [ua, ub];
    secondRequest := BuildDescriptors(up.unsignedQueue).0;
    DescribeTwo(ua, ub);
  }

  /** The same two saves when signed uploads leave the unsigned queue: `a` is asked for once. */
  method ResignScenarioCorrected(a: File, b: File, url: string, headers: Headers)
    returns (firstRequest: seq<Descriptor>, secondRequest: seq<Descriptor>)
    requires a.name != b.name && a.name !in ObjectPrototypeNames && b.name !in ObjectPrototypeNames
    ensures firstRequest == [DescriptorOf(a)]
    ensures secondRequest == [DescriptorOf(b)]
  {
    var up;
    up, firstRequest := FirstRound(a, url, headers, true);
    var ub := UnsignedUpload(b.name, b);
    SettledCombineDrained(up.successfulUploads[0], b.name);
    AcceptOne(up.UploadMap(), b);
    up.Save([b]);
    assert up.unsignedQueue == [ub];
    secondRequest := BuildDescriptors(up.unsignedQueue).0;
    SignOne(ub, SignedRecord(2, b.name, url, headers));
  }

  lemma EmptyCombine()
    ensures Combine([], [], map[], [], []) == map[]
  {
    assert Unsigneds([]) == [] && Signeds([]) == [];
  }

  /** A file whose name is neither a key nor a prototype name is accepted on its own. */
  lemma AcceptOne(known: map<string, Upload>, f: File)
    requires f.name !in known && f.name !in ObjectPrototypeNames
    ensures AcceptedAsWritten(known, [f]) == [UnsignedUpload(f.name, f)]
  {
    assert [f][1..] == [];
  }

  /** One upload signed by one matching record becomes one pending upload carrying its file. */
  lemma SignOne(u: UnsignedUpload, record: SignedRecord)
    requires record.key == u.key
    ensures BuildDescriptors([u]).0 == [Descriptor(u.key, u.file.mimeType, u.file.size)]
    ensures ToPending([record], BuildDescriptors([u]).1)
         == [SignedUpload(record.id, record.key, record.url, record.headers, Some(u.file), Pending)]
  {
    assert [u][..0] == [];
  }

  /** Descriptors for a two-upload batch, in order. */
  lemma DescribeTwo(u: UnsignedUpload, v: UnsignedUpload)
    ensures BuildDescriptors([u, v]).0
         == [Descriptor(u.key, u.file.mimeType, u.file.size), Descriptor(v.key, v.file.mimeType, v.file.size)]
  {
    assert [u, v][..1] == [u];
    assert [u][..0] == [];
    assert BuildDescriptors([u]).0 == [Descriptor(u.key, u.file.mimeType, u.file.size)];
  }

  /** Draining a one-upload queue by its own key empties it. */
  lemma DrainOne(u: UnsignedUpload, record: SignedRecord)
    requires record.key == u.key
    ensures WithoutKeys([u], RecordKeys([record])) == []
  {
    assert [u][1..] == [];
    assert [record][0] == record;
    assert RecordKeys([record]) == {u.key};
  }

  /** A one-upload transfer that succeeds. */
  lemma SettleOne(p: SignedUpload)
    ensures FulfilledValues(Outcomes([p], [true])) == [p.(state := Successful)]
    ensures RejectedReasons(Outcomes([p], [true])) == []
    ensures SignedKeys([p]) == {p.key}
  {
    var rs := Outcomes([p], [true]);
    assert rs == [Fulfilled(p.(state := Successful))];
    assert rs[..0] == [];
  }

  /** After the first upload settles while it is still unsigned too, only its key is taken. */
  lemma SettledCombine(u: UnsignedUpload, s: SignedUpload, k: string)
    requires u.key == s.key != k
    ensures k !in Combine([u], [], map[], [s], [])
  {
    CombineKeysAndPrecedence([u], [], map[], [s], [], k);
  }

  /** After the first upload settles and has left the unsigned queue, only its key is taken. */
  lemma SettledCombineDrained(s: SignedUpload, k: string)
    requires s.key != k
    ensures k !in Combine([], [], map[], [s], [])
  {
    CombineKeysAndPrecedence([], [], map[], [s], [], k);
  }
}
