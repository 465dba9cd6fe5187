/** The identity keystore and its migration (src/xete_mcp/client.py): what an identity keeps of the
    secrets it is loaded with, and what crashes and concurrent migrations can do to the file. */
module Keystore {
  import opened Wrappers
  import opened Wire

  const SECRET_LENGTH := 32

  /** Key derivation and base64, about which only what `Sound` says is assumed. `decode` is the lenient
      one: no bytes for anything it cannot read. */
  datatype Codec = Codec(derive: Bytes -> Bytes, encode: Bytes -> string, decode: string -> Bytes)

  ghost predicate Sound(c: Codec) {
    && (forall b :: |c.derive(b)| == SECRET_LENGTH)
    && (forall b :: c.decode(c.encode(b)) == b)
  }

  // ---- identities ----

  datatype Identity = Identity(seed: Bytes, secret: Bytes, agentId: string, legacy: seq<Bytes>)

  /** The candidates that are secrets, are not the derived one and were not kept before, in order. */
  function Kept(derived: Bytes, candidates: seq<Bytes>): seq<Bytes> {
    if candidates == [] then []
    else
      var kept, last := Kept(derived, candidates[..|candidates| - 1]), candidates[|candidates| - 1];
      if |last| != SECRET_LENGTH || last == derived || last in kept then kept else kept + [last]
  }

  function Made(c: Codec, seed: Bytes, supplied: Bytes, agentId: string, legacy: seq<Bytes>): Identity {
    Identity(seed, c.derive(seed), agentId, Kept(c.derive(seed), [supplied] + legacy))
  }

  method MakeIdentity(c: Codec, seed: Bytes, supplied: Bytes, agentId: string, legacy: seq<Bytes>) returns (i: Identity)
    ensures i == Made(c, seed, supplied, agentId, legacy)
  {
    var secret := c.derive(seed);
    var candidates := [supplied] + legacy;
    var kept: seq<Bytes> := [];
    for n := 0 to |candidates|
      invariant kept == Kept(secret, candidates[..n])
    {
      var s := candidates[n];
      assert candidates[..n + 1][..n] == candidates[..n];
      if |s| == SECRET_LENGTH && s != secret && s !in kept {
        kept := kept + [s];
      }
    }
    assert candidates[..|candidates|] == candidates;
    return Identity(seed, secret, agentId, kept);
  }

  /** The secrets tried when a message is opened, in the order they are tried. */
  function DecryptionSecrets(i: Identity): seq<Bytes> {
    [i.secret] + i.legacy
  }

  ghost predicate Distinct(ss: seq<Bytes>) {
    forall i, j :: 0 <= i < j < |ss| ==> ss[i] != ss[j]
  }

  ghost predicate WellMade(c: Codec, i: Identity) {
    && i.secret == c.derive(i.seed)
    && Distinct(DecryptionSecrets(i))
    && forall s :: s in DecryptionSecrets(i) ==> |s| == SECRET_LENGTH
  }

  lemma {:induction false} KeptFacts(derived: Bytes, candidates: seq<Bytes>)
    ensures var k := Kept(derived, candidates);
            && Distinct(k)
            && (forall s :: s in k <==> s in candidates && |s| == SECRET_LENGTH && s != derived)
  {
    if candidates != [] {
      var front, last := candidates[..|candidates| - 1], candidates[|candidates| - 1];
      KeptFacts(derived, front);
      assert candidates == front + [last];
    }
  }

  /** Loading loses no secret and invents none: what an identity can decrypt with is exactly the derived
      secret, first, and every 32-byte secret it was given, each once. */
  lemma NoSecretIsLost(c: Codec, seed: Bytes, supplied: Bytes, agentId: string, legacy: seq<Bytes>)
    requires Sound(c)
    ensures var i := Made(c, seed, supplied, agentId, legacy);
            && WellMade(c, i) && DecryptionSecrets(i)[0] == c.derive(seed)
            && forall s :: s in DecryptionSecrets(i) <==>
                 s == c.derive(seed) || (|s| == SECRET_LENGTH && (s == supplied || s in legacy))
  {
    var i := Made(c, seed, supplied, agentId, legacy);
    KeptFacts(c.derive(seed), [supplied] + legacy);
    hide Kept;
    assert forall s :: s in DecryptionSecrets(i) <==> s == i.secret || s in i.legacy;
    forall a, b | 0 <= a < b < |DecryptionSecrets(i)| ensures DecryptionSecrets(i)[a] != DecryptionSecrets(i)[b] {
      assert DecryptionSecrets(i)[b] == i.legacy[b - 1];
      if a > 0 {
        assert DecryptionSecrets(i)[a] == i.legacy[a - 1];
      }
    }
  }

  // ---- the file ----

  /** A keystore as parsed: fields are text, and every one but the seed may be missing or unreadable. */
  datatype Doc = Doc(seed: string, secret: Option<string>, agentId: string, legacy: seq<string>)

  function EncodedAll(c: Codec, ss: seq<Bytes>): seq<string> {
    if ss == [] then [] else EncodedAll(c, ss[..|ss| - 1]) + [c.encode(ss[|ss| - 1])]
  }

  /** The readable ones. */
  function DecodedAll(c: Codec, ts: seq<string>): seq<Bytes> {
    if ts == [] then []
    else
      var b := c.decode(ts[|ts| - 1]);
      DecodedAll(c, ts[..|ts| - 1]) + (if b == [] then [] else [b])
  }

  function ToDoc(c: Codec, i: Identity): Doc {
    Doc(c.encode(i.seed), Some(c.encode(i.secret)), i.agentId, EncodedAll(c, i.legacy))
  }

  function FromDoc(c: Codec, d: Doc): Identity {
    Made(c, c.decode(d.seed), match d.secret { case Some(t) => c.decode(t) case None => [] }, d.agentId, DecodedAll(c, d.legacy))
  }

  lemma {:induction false} DecodeEncodeAll(c: Codec, ss: seq<Bytes>)
    requires Sound(c) && forall i :: 0 <= i < |ss| ==> ss[i] != []
    ensures DecodedAll(c, EncodedAll(c, ss)) == ss
  {
    if ss != [] {
      var front := ss[..|ss| - 1];
      DecodeEncodeAll(c, front);
      var e := EncodedAll(c, front);
      assert (e + [c.encode(ss[|ss| - 1])])[..|e|] == e;
    }
  }

  lemma {:induction false} KeptKeepsAll(derived: Bytes, ss: seq<Bytes>)
    requires Distinct([derived] + ss) && forall i :: 0 <= i < |ss| ==> |ss[i]| == SECRET_LENGTH
    ensures Kept(derived, [derived] + ss) == ss
  {
    var all := [derived] + ss;
    if ss != [] {
      var front, last := ss[..|ss| - 1], ss[|ss| - 1];
      assert all[..|all| - 1] == [derived] + front;
      assert forall i :: 0 <= i < |front| ==> all[i + 1] == front[i];
      KeptKeepsAll(derived, front);
      assert all[0] == derived && all[|all| - 1] == last;
    } else {
      assert all[..0] == [];
    }
  }

  /** Writing an identity and reading it back gives the same identity. */
  lemma WriteReadRoundTrip(c: Codec, i: Identity)
    requires Sound(c) && WellMade(c, i)
    ensures FromDoc(c, ToDoc(c, i)) == i
  {
    var all := DecryptionSecrets(i);
    forall k | 0 <= k < |i.legacy| ensures |i.legacy[k]| == SECRET_LENGTH {
      assert all[k + 1] == i.legacy[k] && all[k + 1] in all;
    }
    DecodeEncodeAll(c, i.legacy);
    KeptKeepsAll(i.secret, i.legacy);
  }

  predicate NeedsMigration(c: Codec, d: Doc, i: Identity) {
    i.legacy != [] && (d.secret != ToDoc(c, i).secret || d.legacy != ToDoc(c, i).legacy)
  }

  // ---- one process ----

  /** The keystore and its backup. Every write of either is a complete replacement or does not happen. */
  class Home {
    const codec: Codec
    var keystore: Doc
    var backup: Option<Doc>

    constructor (codec: Codec, keystore: Doc, backup: Option<Doc>)
      ensures this.codec == codec && this.keystore == keystore && this.backup == backup
    {
      this.codec, this.keystore, this.backup := codec, keystore, backup;
    }

    method LoadIdentity(backupWorks: bool, rewriteWorks: bool) returns (i: Identity)
      modifies this
      ensures i == FromDoc(codec, old(keystore))
      ensures var migrates := NeedsMigration(codec, old(keystore), i);
              && backup == (if migrates && old(backup).None? && backupWorks then Some(old(keystore)) else old(backup))
              && keystore == if migrates && backup.Some? && rewriteWorks then ToDoc(codec, i) else old(keystore)
    {
      var raw := keystore;
      i := FromDoc(codec, raw);
      if i.legacy == [] {
        return;
      }
      var want := ToDoc(codec, i);
      if raw.secret == want.secret && raw.legacy == want.legacy {
        return;
      }
      if backup.None? {
        if !backupWorks {
          return;
        }
        backup := Some(raw);
      }
      if rewriteWorks {
        keystore := want;
      }
    }
  }

  // ---- any number of processes, crashing anywhere ----

  /** Where a process is between its file operations. */
  datatype Phase =
    | Loaded(doc: Doc, ident: Identity)
    | BackingUp(doc: Doc, ident: Identity)
    | Rewriting(doc: Doc, ident: Identity)
    | Done(ident: Identity)

  datatype System = System(keystore: Doc, backup: Option<Doc>, running: map<nat, Phase>)

  datatype Action =
    | Load(p: nat)
    | CheckBackup(p: nat)
    | WriteBackup(p: nat, works: bool)
    | Rewrite(p: nat, works: bool)
    | Crash(p: nat)

  function At(s: System, p: nat, phase: Phase): System {
    s.(running := s.running[p := phase])
  }

  /** One file operation of one process; an action that does not fit its phase does nothing. */
  function Step(c: Codec, s: System, a: Action): System {
    if a.Load? then
      var i := FromDoc(c, s.keystore);
      if a.p in s.running && !s.running[a.p].Done? then s
      else At(s, a.p, if NeedsMigration(c, s.keystore, i) then Loaded(s.keystore, i) else Done(i))
    else if a.p !in s.running then s
    else if a.Crash? then s.(running := s.running - {a.p})
    else
      match (a, s.running[a.p])
      case (CheckBackup(p), Loaded(d, i)) => At(s, p, if s.backup.None? then BackingUp(d, i) else Rewriting(d, i))
      case (WriteBackup(p, works), BackingUp(d, i)) =>
        if works then At(s, p, Rewriting(d, i)).(backup := Some(d)) else At(s, p, Done(i))
      case (Rewrite(p, works), Rewriting(d, i)) =>
        if works then At(s, p, Done(i)).(keystore := ToDoc(c, i)) else At(s, p, Done(i))
      case _ => s
  }

  function Run(c: Codec, s: System, actions: seq<Action>): System {
    if actions == [] then s else Step(c, Run(c, s, actions[..|actions| - 1]), actions[|actions| - 1])
  }

  /** What holds at every point: the keystore is the original or its migrated form, the backup is the one
      there was or the original, the original is never gone from both, and everybody who is migrating
      has read the original. */
  ghost predicate Inv(c: Codec, s: System, original: Doc, backup: Option<Doc>) {
    var i := FromDoc(c, original);
    && (s.keystore == original || s.keystore == ToDoc(c, i))
    && (s.backup == backup || (backup.None? && s.backup == Some(original)))
    && (s.keystore == original || s.backup.Some?)
    && forall p :: p in s.running ==>
         && s.running[p].ident == i
         && (!s.running[p].Done? ==> s.running[p].doc == original)
         && (s.running[p].BackingUp? ==> backup.None?)
         && (s.running[p].Rewriting? ==> s.backup.Some?)
  }

  lemma MigratedIsStable(c: Codec, d: Doc)
    requires Sound(c)
    ensures FromDoc(c, ToDoc(c, FromDoc(c, d))) == FromDoc(c, d)
    ensures !NeedsMigration(c, ToDoc(c, FromDoc(c, d)), FromDoc(c, d))
  {
    NoSecretIsLost(c, c.decode(d.seed), match d.secret { case Some(t) => c.decode(t) case None => [] }, d.agentId,
                   DecodedAll(c, d.legacy));
    WriteReadRoundTrip(c, FromDoc(c, d));
  }

  lemma StepKeepsInv(c: Codec, s: System, a: Action, original: Doc, backup: Option<Doc>)
    requires Sound(c) && Inv(c, s, original, backup)
    ensures Inv(c, Step(c, s, a), original, backup)
  {
    MigratedIsStable(c, original);
    hide FromDoc, ToDoc, Sound;
  }

  /** Crash safety. Start with any keystore and any backup, and let any number of processes load,
      migrate, fail and crash in any interleaving of their file operations. At every point, loading the
      keystore gives the identity the original gives, with the same decryption secrets in the same order;
      a backup that was present is untouched, and one that was not is the original; and the original text
      is still on disk. */
  lemma {:induction false} MigrationIsSafe(c: Codec, original: Doc, backup: Option<Doc>, actions: seq<Action>)
    requires Sound(c)
    ensures var s := Run(c, System(original, backup, map[]), actions);
            && Inv(c, s, original, backup)
            && FromDoc(c, s.keystore) == FromDoc(c, original)
            && DecryptionSecrets(FromDoc(c, s.keystore)) == DecryptionSecrets(FromDoc(c, original))
            && (backup.Some? ==> s.backup == backup)
            && (backup.None? ==> s.keystore == original || s.backup == Some(original))
  {
    MigratedIsStable(c, original);
    if actions != [] {
      MigrationIsSafe(c, original, backup, actions[..|actions| - 1]);
      StepKeepsInv(c, Run(c, System(original, backup, map[]), actions[..|actions| - 1]), actions[|actions| - 1], original, backup);
    }
    hide FromDoc, ToDoc, Sound, Step;
  }

  /** Once the keystore has been rewritten nobody rewrites it again: a process that loads the migrated
      file is done at once. */
  lemma SecondLoadRewritesNothing(c: Codec, original: Doc, backup: Option<Doc>, actions: seq<Action>, p: nat)
    requires Sound(c)
    requires var s := Run(c, System(original, backup, map[]), actions);
             p !in s.running && s.keystore == ToDoc(c, FromDoc(c, original))
    ensures var s := Run(c, System(original, backup, map[]), actions);
            Step(c, s, Load(p)) == At(s, p, Done(FromDoc(c, original)))
  {
    MigratedIsStable(c, original);
    hide FromDoc, ToDoc, Sound, Run;
  }
}
