/** The order in which llm_client.py tries providers and models. */
module Attempts {
  import opened Common

  type Provider(==, !new)
  type Model(==, !new)

  /** A provider and a model; None stands for an empty model name. */
  datatype Path = Path(provider: Provider, model: Option<Model>)

  /** The configuration the list is read from. */
  datatype Settings = Settings(gemini: Provider, geminiFallback: Option<Model>, order: seq<Provider>,
                               fallback: Option<Provider>, modelFor: Provider -> Option<Model>,
                               configured: Provider -> bool)

  /** A provider of the preference order that is tried after `requested`. */
  predicate Eligible(settings: Settings, requested: Provider, p: Provider) {
    p != requested && settings.modelFor(p).Some? && (p == settings.gemini || settings.configured(p))
  }

  /** The eligible ones among the first `n` preferred providers, with their default models. */
  ghost function Preferred(settings: Settings, requested: Provider, n: nat): seq<Path>
    requires n <= |settings.order|
  {
    if n == 0 then []
    else
      var p := settings.order[n - 1];
      if Eligible(settings, requested, p) then Preferred(settings, requested, n - 1) + [Path(p, settings.modelFor(p))]
      else Preferred(settings, requested, n - 1)
  }

  /** The places of the preference order that a dispatch can try after the requested provider. */
  ghost function Usable(settings: Settings, requested: Provider, n: nat): (places: set<nat>) {
    set i: nat | i < n && i < |settings.order| && settings.order[i] != requested
                 && settings.modelFor(settings.order[i]).Some?
                 && (settings.order[i] == settings.gemini || settings.configured(settings.order[i]))
  }

  /** These providers and no others, as often as they are listed, each with its default model... */
  lemma {:induction false} PreferredAreUsable(settings: Settings, requested: Provider, n: nat)
    requires n <= |settings.order|
    ensures |Preferred(settings, requested, n)| == |Usable(settings, requested, n)|
    ensures forall path :: path in Preferred(settings, requested, n) <==>
              exists i :: i in Usable(settings, requested, n) &&
                          path == Path(settings.order[i], settings.modelFor(settings.order[i]))
  {
    if n == 0 {
    } else {
      PreferredAreUsable(settings, requested, n - 1);
      var before, now := Usable(settings, requested, n - 1), Usable(settings, requested, n);
      if Eligible(settings, requested, settings.order[n - 1]) {
        assert now == before + {n - 1};
      } else {
        assert now == before;
      }
    }
  }

  /** ... and in the order of preference. */
  lemma {:induction false} PreferredInOrder(settings: Settings, requested: Provider, n: nat, i: nat, j: nat)
    returns (a: nat, b: nat)
    requires i < j < n <= |settings.order| && {i, j} <= Usable(settings, requested, n)
    ensures a < b < |Preferred(settings, requested, n)|
    ensures Preferred(settings, requested, n)[a] == Path(settings.order[i], settings.modelFor(settings.order[i]))
    ensures Preferred(settings, requested, n)[b] == Path(settings.order[j], settings.modelFor(settings.order[j]))
  {
    if j == n - 1 {
      PreferredAreUsable(settings, requested, j);
      assert i in Usable(settings, requested, j);
      var path := Path(settings.order[i], settings.modelFor(settings.order[i]));
      assert path in Preferred(settings, requested, j);
      a, b :| a < |Preferred(settings, requested, j)| && Preferred(settings, requested, j)[a] == path
              && b == |Preferred(settings, requested, j)|;
    } else {
      a, b := PreferredInOrder(settings, requested, n - 1, i, j);
    }
  }

  ghost predicate Has(paths: seq<Path>, p: Provider) {
    exists i :: 0 <= i < |paths| && paths[i].provider == p
  }

  /** The requested path, and for Gemini its fallback model if that is another one. */
  function Own(settings: Settings, requested: Provider, model: Model): seq<Path> {
    if requested == settings.gemini && settings.geminiFallback.Some? && settings.geminiFallback != Some(model)
    then [Path(requested, Some(model)), Path(requested, settings.geminiFallback)]
    else [Path(requested, Some(model))]
  }

  /** Without a preference order: the fallback provider, and Gemini unless it is there already. */
  function Backstops(settings: Settings, requested: Provider): seq<Path> {
    var own, last := settings.fallback, Path(settings.gemini, settings.modelFor(settings.gemini));
    (if own.Some? && own.value != requested then [Path(own.value, settings.modelFor(own.value))] else []) +
    (if last.model.Some? && requested != settings.gemini && own != Some(settings.gemini) then [last] else [])
  }

  /** The paths of the requested provider come first and together. */
  ghost predicate RequestedFirst(paths: seq<Path>, requested: Provider, model: Model) {
    && paths != [] && paths[0] == Path(requested, Some(model))
    && forall i, j :: 0 <= i < j < |paths| && paths[j].provider == requested ==> paths[i].provider == requested
  }

  /**
   `_attempts`: the requested path first, its provider's other model next, then the others: the
   preference order if there is one, and otherwise the fallback provider with Gemini as the
   last resort whenever it has a model.
   */
  method PathsFor(settings: Settings, requested: Provider, model: Model) returns (paths: seq<Path>)
    ensures RequestedFirst(paths, requested, model)
    ensures paths == Own(settings, requested, model) +
                     if settings.order == [] then Backstops(settings, requested)
                     else Preferred(settings, requested, |settings.order|)
    ensures settings.order == [] && settings.modelFor(settings.gemini).Some? ==> Has(paths, settings.gemini)
    ensures settings.order == [] && settings.fallback.Some? ==> Has(paths, settings.fallback.value)
    ensures requested == settings.gemini && settings.geminiFallback.Some? && settings.geminiFallback != Some(model) ==>
              |paths| > 1 && paths[1] == Path(requested, settings.geminiFallback)
    ensures forall i :: 0 <= i < |paths| && paths[i].provider == requested ==>
              paths[i].model == Some(model) || paths[i].model == settings.geminiFallback
  {
    paths := [Path(requested, Some(model))];
    if requested == settings.gemini && settings.geminiFallback.Some? && settings.geminiFallback != Some(model) {
      paths := paths + [Path(requested, settings.geminiFallback)];
    }
    ghost var own := paths;
    assert own == Own(settings, requested, model);
    if settings.order != [] {
      OthersKeepOut(settings, requested, |settings.order|);
      OwnComeFirst(settings, requested, model, Preferred(settings, requested, |settings.order|));
      hide Own, RequestedFirst, Has, Backstops;
      for n := 0 to |settings.order|
        invariant paths == own + Preferred(settings, requested, n)
      {
        var p := settings.order[n];
        if Eligible(settings, requested, p) {
          paths := paths + [Path(p, settings.modelFor(p))];
        }
      }
      return;
    }
    BackstopsAreThere(settings, requested, model);
    OwnComeFirst(settings, requested, model, Backstops(settings, requested));
    hide RequestedFirst, Has;
    if settings.fallback.Some? && settings.fallback.value != requested {
      paths := paths + [Path(settings.fallback.value, settings.modelFor(settings.fallback.value))];
    }
    ListedAlready(settings, requested, model, paths);
    var listed := exists i :: 0 <= i < |paths| && paths[i].provider == settings.gemini;
    hide Own;
    if settings.modelFor(settings.gemini).Some? && !listed {
      paths := paths + [Path(settings.gemini, settings.modelFor(settings.gemini))];
    }
  }

  /** Gemini is on the list already if it was asked for or is the fallback. */
  lemma {:induction false} ListedAlready(settings: Settings, requested: Provider, model: Model, paths: seq<Path>)
    requires var own := Own(settings, requested, model);
             paths == if settings.fallback.Some? && settings.fallback.value != requested
                      then own + [Path(settings.fallback.value, settings.modelFor(settings.fallback.value))] else own
    ensures (exists i :: 0 <= i < |paths| && paths[i].provider == settings.gemini) <==>
            requested == settings.gemini || settings.fallback == Some(settings.gemini)
  {
    assert paths[0].provider == requested;
    if settings.fallback.Some? && settings.fallback.value != requested {
      assert paths[|paths| - 1].provider == settings.fallback.value;
    }
  }

  /** What follows the requested provider's own paths leaves them in front. */
  lemma {:induction false} OwnComeFirst(settings: Settings, requested: Provider, model: Model, others: seq<Path>)
    requires forall i :: 0 <= i < |others| ==> others[i].provider != requested
    ensures var paths := Own(settings, requested, model) + others;
            && RequestedFirst(paths, requested, model)
            && (requested == settings.gemini && settings.geminiFallback.Some? &&
                settings.geminiFallback != Some(model) ==>
                  |paths| > 1 && paths[1] == Path(requested, settings.geminiFallback))
            && forall i :: 0 <= i < |paths| && paths[i].provider == requested ==>
                 paths[i].model == Some(model) || paths[i].model == settings.geminiFallback
  {
    var own := Own(settings, requested, model);
    var paths := own + others;
    forall i | |own| <= i < |paths| ensures paths[i].provider != requested {
      assert paths[i] == others[i - |own|];
    }
    assert forall i :: 0 <= i < |own| ==> paths[i] == own[i];
  }

  lemma {:induction false} OthersKeepOut(settings: Settings, requested: Provider, n: nat)
    requires n <= |settings.order|
    ensures forall i :: 0 <= i < |Preferred(settings, requested, n)| ==>
              Preferred(settings, requested, n)[i].provider != requested
  {
    if n == 0 {
    } else {
      OthersKeepOut(settings, requested, n - 1);
    }
  }

  lemma {:induction false} BackstopsAreThere(settings: Settings, requested: Provider, model: Model)
    ensures var others := Backstops(settings, requested);
            var paths := Own(settings, requested, model) + others;
            && (forall i :: 0 <= i < |others| ==> others[i].provider != requested)
            && (settings.modelFor(settings.gemini).Some? ==> Has(paths, settings.gemini))
            && (settings.fallback.Some? ==> Has(paths, settings.fallback.value))
  {
    var own, others := Own(settings, requested, model), Backstops(settings, requested);
    var paths := own + others;
    assert paths[0].provider == requested;
    if others != [] {
      assert paths[|own|] == others[0] && paths[|paths| - 1] == others[|others| - 1];
    }
  }
}
