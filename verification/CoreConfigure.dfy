/** The table of known callbacks that every client is given when the core is configured. */
module CoreConfigure {

  import opened Hub
  import opened JsonRpc

  /** The two loops over the modules and their callbacks build exactly the names the gate of
      `newMessage` is checked against. */
  method KnownCallbacks(cfg: Config) returns (known: set<string>)
    requires cfg.Valid()
    ensures forall procedure :: procedure in known <==> cfg.Known(procedure)
  {
    hide KnownName;
    known := {};
    for i := 0 to |cfg.names|
      invariant forall p :: p in known <==> exists j, c :: 0 <= j < i && c in cfg.callbacks[cfg.names[j]] && p == KnownName(cfg.names[j], c)
    {
      var name := cfg.names[i];
      assert name in cfg.names;
      var todo := cfg.callbacks[name];
      ghost var before := known;
      while todo != {}
        invariant todo <= cfg.callbacks[name]
        invariant forall p :: p in known <==> p in before || exists c :: c in cfg.callbacks[name] && c !in todo && p == KnownName(name, c)
        decreases |todo|
      {
        var c :| c in todo;
        known := known + {KnownName(name, c)};
        todo := todo - {c};
      }
    }
    known := known + {"core_ping"};
    forall p
      ensures p in known <==> cfg.Known(p)
    {
      KnownByIndex(cfg, p);
    }
  }

  lemma KnownByIndex(cfg: Config, p: string)
    requires cfg.Valid()
    ensures (exists m, c :: m in cfg.callbacks && c in cfg.callbacks[m] && p == KnownName(m, c))
       <==> (exists j, c :: 0 <= j < |cfg.names| && cfg.names[j] in cfg.callbacks && c in cfg.callbacks[cfg.names[j]]
                            && p == KnownName(cfg.names[j], c))
  {
    hide KnownName;
    forall m, c | m in cfg.callbacks && c in cfg.callbacks[m] && p == KnownName(m, c)
      ensures exists j :: 0 <= j < |cfg.names| && cfg.names[j] == m
    {
      assert m in cfg.names;
    }
  }
}
