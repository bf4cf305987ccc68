/**
 TLS configurations by host name (caddytls/handshake.go, getConfig): a second wildcard search over
 names, proved to make the same choice as the one of the virtual-host trie.
 */
module ConfigGroup {
  import opened HostNames
  import opened Wrappers

  /** The configuration under the key that the search for a name selects, else the one for all names. */
  ghost predicate Decides<C>(group: map<string, C>, name: string, config: Option<C>) {
    match Select(group.Keys, name)
    case Some(key) => key in group && config == Some(group[key])
    case None => "" in group ==> config == Some(group[""])
  }

  /**
   The configuration for a handshake: by the name the client gave, or by the default when it gave
   none; without either, by the address if there is a configuration for it. The names come
   normalised; the address is that of the connection, if there is one, without its port.
   */
  method GetConfig<C>(group: map<string, C>, serverName: string, defaultName: string, address: Option<string>)
    returns (config: Option<C>)
    ensures config == None <==> group == map[]
    ensures config.Some? ==> exists key :: key in group && config == Some(group[key])
    ensures serverName != "" ==> Decides(group, serverName, config)
    ensures serverName == "" && defaultName != "" ==> Decides(group, defaultName, config)
    ensures serverName == "" && defaultName == "" ==>
              if address.Some? && address.value in group then config == Some(group[address.value])
              else Decides(group, "", config)
  {
    hide Split, Join, Wild, SearchFrom;
    var name := if serverName == "" then defaultName else serverName;
    if name == "" && address.Some? && address.value in group {
      return Some(group[address.value]);
    }
    ghost var keys := group.Keys;
    CandidateNone(name);
    SearchNext(keys, name, 0);
    if name in group {
      return Some(group[name]);
    }
    SearchEnds(keys, name);
    var names := Split(name);
    var labels := new string[|names|](i requires 0 <= i < |names| => names[i]);
    assert labels[..] == names;
    for i := 0 to labels.Length
      invariant labels[..] == Wild(names, i)
      invariant Select(keys, name) == SearchFrom(keys, name, i + 1)
    {
      WildNext(name, i, labels[..]);
      labels[i] := "*";
      assert labels[..] == Wild(names, i + 1);
      var candidate := Join(labels[..]);
      SearchNext(keys, name, i + 1);
      if candidate in group {
        return Some(group[candidate]);
      }
    }
    if "" in group {
      return Some(group[""]);
    }
    if key :| key in group {
      return Some(group[key]);
    }
    return None;
  }
}
