/** HomeKit services and characteristics (src/shelly_hap_service.cpp,
    src/shelly_hap_chars.cpp): a service owns its characteristics and keeps
    the null-terminated characteristic list and zero-terminated link list
    the HAP library reads; a string characteristic answers reads by
    copying its value into the library's buffer. */
module Hap {
  import opened Wrappers
  import Common

  const IidBaseServiceLabel := 0x1030

  datatype CharFormat = StringFormat | UInt8Format | OtherFormat

  /** An event handed to the HAP server: characteristic iid, service (None
      for a service with iid 0) and accessory id. */
  datatype RaisedEvent = RaisedEvent(charIid: int, svcIid: Option<int>, aid: int)

  /** An accessory, as far as characteristics see it: its id and whether
      its HAP server exists. */
  class Accessory {
    const aid: int
    var hasServer: bool

    constructor (aid: int, hasServer: bool)
      ensures this.aid == aid && this.hasServer == hasServer
    {
      this.aid := aid;
      this.hasServer := hasServer;
    }
  }

  /** A characteristic; `value` is the value of a string characteristic,
      `number` the value an integer characteristic reads. */
  class Characteristic {
    const iid: int
    const format: CharFormat
    const maxLength: int
    var value: string
    const number: int
    var parent: Service?

    constructor String(iid: int, maxLength: int, initial: string)
      ensures this.iid == iid && format == StringFormat && this.maxLength == maxLength
      ensures value == initial && parent == null
    {
      this.iid := iid;
      format := StringFormat;
      this.maxLength := maxLength;
      value := initial;
      number := 0;
      parent := null;
    }

    constructor UInt8(iid: int, number: int)
      ensures this.iid == iid && format == UInt8Format && this.number == number && parent == null
    {
      this.iid := iid;
      format := UInt8Format;
      maxLength := 0;
      value := "";
      this.number := number;
      parent := null;
    }

    method SetParent(p: Service?)
      modifies this
      ensures parent == p && value == old(value)
    {
      parent := p;
    }

    method SetValue(v: string)
      modifies this
      ensures value == v && parent == old(parent)
    {
      value := v;
    }

    method Value() returns (v: string)
      ensures v == value
    {
      return value;
    }

    /** HandleReadCB of a string characteristic: copies as much of the
        value as fits in front of the terminating NUL. */
    method HandleRead(buf: array<char>) returns (n: nat)
      requires buf.Length >= 1
      modifies buf
      ensures n == if |value| < buf.Length - 1 then |value| else buf.Length - 1
      ensures buf[..n] == value[..n] && buf[n] == '\0'
      ensures forall j :: n < j < buf.Length ==> buf[j] == old(buf[j])
    {
      n := if |value| < buf.Length - 1 then |value| else buf.Length - 1;
      var i := 0;
      while i < n
        invariant 0 <= i <= n
        invariant forall j :: 0 <= j < i ==> buf[j] == value[j]
        invariant forall j :: i <= j < buf.Length ==> buf[j] == old(buf[j])
      {
        buf[i] := value[i];
        i := i + 1;
      }
      buf[n] := '\0';
      assert buf[..n] == value[..n];
    }

    /** RaiseEvent: the event reaches the server only through a parent
        service whose accessory has a server. */
    method RaiseEvent() returns (ev: Option<RaisedEvent>)
      ensures ev.Some? <==> parent != null && parent.accessory != null && parent.accessory.hasServer
      ensures ev.Some? ==> ev.value == RaisedEvent(iid, parent.HapService(), parent.accessory.aid)
    {
      var svc := parent;
      if svc == null {
        return None;
      }
      var acc := svc.accessory;
      if acc == null || !acc.hasServer {
        return None;
      }
      return Some(RaisedEvent(iid, svc.HapService(), acc.aid));
    }
  }

  /** The characteristic list the library reads: every characteristic in
      order, then a null entry. */
  function Terminated(cs: seq<Characteristic>): seq<Option<Characteristic>>
    ensures |Terminated(cs)| == |cs| + 1
  {
    seq(|cs|, i requires 0 <= i < |cs| => Some(cs[i])) + [None]
  }

  class Service {
    var iid: int
    var name: Option<string>
    /** chars_: the characteristics the service owns. */
    var chars: seq<Characteristic>
    /** hap_chars_: what svc_.characteristics points to. */
    var hapChars: seq<Option<Characteristic>>
    /** links_: what svc_.linkedServices points to. */
    var links: seq<int>
    var accessory: Accessory?

    /** The lists are empty until the first addition; afterwards the
        characteristic list is null-terminated and the link list is
        zero-terminated with no zero before the end. */
    predicate Valid()
      reads this
    {
      && (if chars == [] then hapChars == [] else hapChars == Terminated(chars))
      && (links == [] || (links[|links| - 1] == 0 && forall i :: 0 <= i < |links| - 1 ==> links[i] != 0))
    }

    /** The linked service iids, without the terminator. */
    function Links(): seq<int>
      reads this
    {
      if links == [] then [] else links[..|links| - 1]
    }

    constructor (iid: int)
      ensures this.iid == iid && name == None && chars == [] && hapChars == [] && links == []
      ensures accessory == null && Valid()
    {
      this.iid := iid;
      name := None;
      chars, hapChars, links := [], [], [];
      accessory := null;
    }

    /** GetHAPService: no service for iid 0. */
    function HapService(): (r: Option<int>)
      reads this
      ensures r.None? <==> iid == 0
      ensures r.Some? ==> r.value == iid
    {
      if iid == 0 then None else Some(iid)
    }

    /** AddChar takes ownership of `ch`. */
    method AddChar(ch: Characteristic)
      requires Valid()
      modifies this
      ensures chars == old(chars) + [ch] && hapChars == Terminated(chars) && Valid()
      ensures links == old(links) && iid == old(iid) && name == old(name) && accessory == old(accessory)
    {
      if |hapChars| > 0 {
        hapChars := hapChars[..|hapChars| - 1];
      }
      chars := chars + [ch];
      hapChars := hapChars + [Some(ch), None];
      assert hapChars == Terminated(chars);
    }

    /** AddNameChar: a 64-character string characteristic holding the
        name, which also becomes the service's name. The name is a copy of
        the value taken here; in the source the service's name points into
        the characteristic's value, so a later write to the characteristic
        renames the service, which this model does not follow. */
    method AddNameChar(charIid: int, n: string) returns (c: Characteristic)
      requires Valid()
      modifies this
      ensures fresh(c) && c.iid == charIid && c.format == StringFormat && c.maxLength == Common.MaxNameLen && c.value == n
      ensures name == Some(n) && chars == old(chars) + [c] && Valid()
      ensures links == old(links) && iid == old(iid) && accessory == old(accessory)
    {
      c := new Characteristic.String(charIid, Common.MaxNameLen, n);
      name := Some(c.value);
      AddChar(c);
    }

    /** AddLink: iid 0 cannot be linked, as it terminates the list. */
    method AddLink(linkIid: int)
      requires Valid()
      modifies this
      ensures linkIid == 0 ==> links == old(links)
      ensures linkIid != 0 ==> Links() == old(Links()) + [linkIid] && links == Links() + [0]
      ensures Valid() && chars == old(chars) && hapChars == old(hapChars)
      ensures iid == old(iid) && name == old(name) && accessory == old(accessory)
    {
      if linkIid == 0 {
        return;
      }
      if |links| > 0 {
        links := links[..|links| - 1];
      }
      links := links + [linkIid, 0];
    }
  }

  /** ServiceLabelService: a service label service with its namespace
      characteristic, which reads `ns`. */
  method NewServiceLabelService(ns: int) returns (s: Service)
    ensures fresh(s) && s.iid == IidBaseServiceLabel && s.HapService() == Some(IidBaseServiceLabel)
    ensures |s.chars| == 1 && s.chars[0].iid == IidBaseServiceLabel + 1
    ensures s.chars[0].format == UInt8Format && s.chars[0].number == ns && s.Valid()
  {
    s := new Service(IidBaseServiceLabel);
    var c := new Characteristic.UInt8(IidBaseServiceLabel + 1, ns);
    s.AddChar(c);
  }

  /** A characteristic added to a service and given it as parent raises
      events once the accessory has a server, naming the service; set_value
      then a read with room to spare returns the value with its NUL. */
  method NameCharRoundTrip(svcIid: int, n: string, acc: Accessory) returns (ev: Option<RaisedEvent>, read: seq<char>)
    requires svcIid != 0 && acc.hasServer
    ensures ev == Some(RaisedEvent(svcIid + 1, Some(svcIid), acc.aid))
    ensures read == n + ['\0']
  {
    var s := new Service(svcIid);
    s.accessory := acc;
    var c := s.AddNameChar(svcIid + 1, n);
    c.SetParent(s);
    ev := c.RaiseEvent();
    var buf := new char[|n| + 1];
    var k := c.HandleRead(buf);
    read := buf[..k + 1];
    assert read == buf[..k] + [buf[k]];
  }
}
