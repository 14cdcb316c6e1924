/** The table of sslkit/skytap_impersonate.c as the array it is, with the slot search loop. */
module ImpersonateTable {
  import opened Prelude
  import opened Impersonate

  class FaceTable {
    const faces: array<Face>
    var lastHost: string

    ghost function State(): Table
      reads this, faces
    {
      Table(faces[..], lastHost)
    }

    constructor ()
      ensures State() == Zeroed() && faces.Length == MAX_SSL && fresh(faces)
    {
      faces := new Face[MAX_SSL](_ => Face(0, "", None));
      lastHost := "";
    }

    method SkytapNoteHost(name: string)
      modifies this`lastHost
      ensures State() == NoteHost(old(State()), name)
    {
      if name == "" { return; }
      lastHost := name;
    }

    /** One pass over the slots: stop at the slot of s, remember the first empty slot on the way. */
    method SkytapFace(s: Ssl, create: bool) returns (f: Option<nat>)
      requires s != 0
      modifies faces
      ensures f.Some? ==> f.value < faces.Length
      ensures create ==> Found(State(), f) == FaceOf(old(State()), s)
      ensures !create ==> State() == old(State()) && f == FindSlot(faces[..], s, 0)
    {
      var i, empty := 0, -1;
      f := None;
      assert faces[..] == old(faces[..]);
      while i < faces.Length
        invariant 0 <= i <= faces.Length && -1 <= empty < i && f.None?
        invariant FindSlot(faces[..], s, 0) == FindSlot(faces[..], s, i)
        invariant FindSlot(faces[..], 0, 0) == if empty >= 0 then Some(empty) else FindSlot(faces[..], 0, i)
      {
        if faces[i].ssl == s {
          f := Some(i);
          break;
        }
        if empty < 0 && faces[i].ssl == 0 {
          empty := i;
        }
        i := i + 1;
      }
      if f.None? && create && empty >= 0 {
        f := Some(empty);
        faces[empty] := Face(s, lastHost, None);
      }
    }

    method SkytapBindHost(s: Ssl, name: string)
      requires faces.Length == MAX_SSL
      modifies this`lastHost, faces
      ensures State() == BindHost(old(State()), s, name)
    {
      if s == 0 || name == "" { return; }
      SkytapNoteHost(name);
      var f := SkytapFace(s, true);
      if f.None? { return; }
      faces[f.value] := faces[f.value].(host := name, chain := None);
    }

    method SkytapChainForSsl(cfg: Config, s: Ssl, sni: string) returns (sk: Option<Chain>)
      requires faces.Length == MAX_SSL
      modifies faces
      ensures Answer(State(), sk) == ChainForSsl(cfg, old(State()), s, sni)
    {
      if !cfg.on || s == 0 { return None; }
      var f := SkytapFace(s, true);
      var host := "";
      if sni != "" {
        host := sni;
      } else if f.Some? && faces[f.value].host != "" {
        host := faces[f.value].host;
      } else if lastHost != "" {
        host := lastHost;
      }
      if f.Some? && faces[f.value].chain.Some? && faces[f.value].host != "" && faces[f.value].host == host {
        return faces[f.value].chain;
      }
      if host == "" || !cfg.enabled(host) { return None; }
      sk := cfg.load(host);
      if sk.None? { return None; }
      if f.Some? {
        faces[f.value] := faces[f.value].(chain := sk, host := host);
      }
    }

    /** A certificate is shown exactly when the lookup found a non-empty chain: its first one. */
    method SkytapImpersonateLeaf(cfg: Config, s: Ssl, sni: string) returns (leaf: Option<string>)
      requires faces.Length == MAX_SSL
      modifies faces
      ensures State() == ChainForSsl(cfg, old(State()), s, sni).table
      ensures leaf == Leaf(ChainForSsl(cfg, old(State()), s, sni).chain)
    {
      var sk := SkytapChainForSsl(cfg, s, sni);
      if sk.None? || |sk.value| < 1 { return None; }
      leaf := Some(sk.value[0]);
    }
  }
}
