/** SOCKS credentials as objects: secret byte arrays zeroed in place, and the daemon's set of
    active ones. */
module Credentials {
  import opened Text

  type Byte = b: int | 0 <= b < 256

  predicate AllZero(a: array<Byte>)
    reads a
  {
    forall i | 0 <= i < a.Length :: a[i] == 0
  }

  method Zeroize(secret: array<Byte>)
    modifies secret
    ensures AllZero(secret)
  {
    for i := 0 to secret.Length
      invariant forall j | 0 <= j < i :: secret[j] == 0
    {
      secret[i] := 0;
    }
  }

  class SocksCredential {
    const username: array<Byte>
    const password: array<Byte>
    var discarded: bool

    constructor (username: seq<Byte>, password: seq<Byte>)
      ensures fresh(this.username) && fresh(this.password) && this.username != this.password
      ensures this.username[..] == username && this.password[..] == password && !discarded
    {
      var u := new Byte[|username|](i requires 0 <= i < |username| => username[i]);
      var p := new Byte[|password|](i requires 0 <= i < |password| => password[i]);
      this.username, this.password, discarded := u, p, false;
    }

    ghost function Footprint(): set<object> {
      {this, username, password}
    }

    predicate Wiped()
      reads this, username, password
    {
      discarded && AllZero(username) && AllZero(password)
    }

    /** `None` is the exception of a discarded credential. */
    function Authentication(): (r: Option<(seq<Byte>, seq<Byte>)>)
      reads this, username, password
      ensures discarded <==> r.None?
    {
      if discarded then None else Some((username[..], password[..]))
    }

    /** Both secrets become zero at their old lengths, and the credential is spent. */
    method Discard()
      requires username != password
      modifies this, username, password
      ensures Wiped() && Authentication().None?
    {
      Zeroize(username);
      Zeroize(password);
      discarded := true;
    }
  }

  class TorDaemon {
    var active: set<SocksCredential>

    constructor ()
      ensures active == {}
    {
      active := {};
    }

    /** Active credentials are usable and share no memory. */
    ghost predicate Valid()
      reads this, active, set c <- active :: c.username, set c <- active :: c.password
    {
      && (forall c <- active :: !c.discarded && c.username != c.password)
      && (forall c <- active, d <- active :: c != d ==> c.Footprint() !! d.Footprint())
    }

    method Issue(username: seq<Byte>, password: seq<Byte>) returns (c: SocksCredential)
      requires Valid()
      modifies this
      ensures Valid() && fresh(c.Footprint())
      ensures active == old(active) + {c} && c.Authentication() == Some((username, password))
    {
      c := new SocksCredential(username, password);
      active := active + {c};
    }

    /** Only an active credential can be discarded, so none is discarded twice. The others keep
        their bytes. */
    method DiscardOne(c: SocksCredential) returns (ok: bool)
      requires Valid()
      modifies this, if c in active then c.Footprint() else {}
      ensures Valid() && ok == (c in old(active)) && active == old(active) - {c}
      ensures ok ==> c.Wiped()
      ensures forall d <- active :: d.Authentication() == old(d.Authentication())
    {
      if c !in active {
        return false;
      }
      active := active - {c};
      c.Discard();
      ok := true;
    }

    method DiscardAll()
      requires Valid()
      modifies this, active, set c <- active :: c.username, set c <- active :: c.password
      ensures active == {}
      ensures forall c <- old(active) :: c.Wiped()
    {
      var credentials := active;
      active := {};
      var rest := credentials;
      while rest != {}
        invariant active == {} && rest <= credentials
        invariant forall c <- credentials - rest :: c.Wiped()
        decreases |rest|
      {
        var c :| c in rest;
        rest := rest - {c};
        c.Discard();
      }
    }
  }
}
