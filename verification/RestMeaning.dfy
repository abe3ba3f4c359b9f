/** When fetching over REST fails, and how many objects it counts. */
module RestMeaning {
  import opened Types
  import opened Store
  import opened SessionSpec
  import opened EventMeaning
  import opened Rest
  import Decode

  /** A body that cannot be decoded: an array with an element that is no object with a string id. */
  predicate IsBadBody(f: Fetched) {
    f.Body? && f.json.Arr? && !AllElements(f.json.elems)
  }

  /** What makes a required endpoint fail. */
  predicate IsFailure(f: Fetched) {
    f.Failed? || IsBadBody(f)
  }

  function ErrorOf(f: Fetched): Status {
    if f.Failed? then f.status else ParseError
  }

  predicate KnownTypes(eps: seq<Endpoint>) {
    forall i | 0 <= i < |eps| :: eps[i].t != UnknownType
  }

  lemma BodyFails(version: ApiVersion, t: ObjectType, json: Json)
    requires t != UnknownType
    ensures BodyEffect(version, t, json).Err? <==> IsBadBody(Body(json))
    ensures BodyEffect(version, t, json).Err? ==> BodyEffect(version, t, json).error == ParseError
  {
    hide Decode.BodyOf, Decode.DiagnosticsOf, Decode.AllDiagnostics, Decode.ObjectsOf, Decode.AllDecodable;
    if json.Arr? {
      ElementsAreDecodable(t, json.elems);
    }
  }

  lemma EndpointFails(o: Options, s: RestState, ep: Endpoint, f: Fetched)
    requires ep.t != UnknownType
    ensures EndpointStep(o, s, ep, f).Err? <==> ep.required && IsFailure(f)
    ensures EndpointStep(o, s, ep, f).Err? ==> EndpointStep(o, s, ep, f).error == ErrorOf(f)
  {
    hide BodyEffect, BodyDiagnostics, AllElements;
    if f.Body? {
      BodyFails(RestVersion(o, s, ep.t, f.json).profile, ep.t, f.json);
    }
  }

  /** Fetching fails if and only if some required endpoint cannot be fetched or decoded. */
  lemma {:induction false} FetchFails(o: Options, eps: seq<Endpoint>, fetched: seq<Fetched>)
    requires |eps| == |fetched| && KnownTypes(eps)
    ensures RestAll(o, eps, fetched).Err? <==> exists i | 0 <= i < |eps| :: eps[i].required && IsFailure(fetched[i])
  {
    hide EndpointStep, IsFailure;
    if eps != [] {
      var last := |eps| - 1;
      FetchFails(o, eps[..last], fetched[..last]);
      var s := RestAll(o, eps[..last], fetched[..last]);
      if s.Err? {
        var i :| 0 <= i < last && eps[..last][i].required && IsFailure(fetched[..last][i]);
        assert eps[i].required && IsFailure(fetched[i]);
      } else {
        EndpointFails(o, s.value, eps[last], fetched[last]);
        forall i | 0 <= i < last
          ensures !(eps[i].required && IsFailure(fetched[i]))
        {
          assert eps[..last][i] == eps[i] && fetched[..last][i] == fetched[i];
        }
      }
    }
  }

  /** And then with the error of the first such endpoint. */
  lemma {:induction false} FirstFailureIsTheError(o: Options, eps: seq<Endpoint>, fetched: seq<Fetched>, i: nat)
    requires |eps| == |fetched| && KnownTypes(eps) && i < |eps| && eps[i].required && IsFailure(fetched[i])
    requires forall j | 0 <= j < i :: !(eps[j].required && IsFailure(fetched[j]))
    ensures RestAll(o, eps, fetched) == Err(ErrorOf(fetched[i]))
  {
    hide EndpointStep, IsFailure;
    var last := |eps| - 1;
    if i < last {
      FirstFailureIsTheError(o, eps[..last], fetched[..last], i);
    } else {
      FetchFails(o, eps[..last], fetched[..last]);
      var s := RestAll(o, eps[..last], fetched[..last]);
      if s.Ok? {
        EndpointFails(o, s.value, eps[last], fetched[last]);
      }
    }
  }

  /** The objects a body brings: its elements, one for anything else, none for null or a failure. */
  function ObjectsIn(f: Fetched): nat {
    if f.Failed? || f.json.Null? then 0 else if f.json.Arr? then |f.json.elems| else 1
  }

  function TotalObjects(fetched: seq<Fetched>): nat {
    if fetched == [] then 0 else TotalObjects(fetched[1..]) + ObjectsIn(fetched[0])
  }

  lemma {:induction false} TotalOfMore(fetched: seq<Fetched>)
    requires fetched != []
    ensures TotalObjects(fetched) == TotalObjects(fetched[..|fetched| - 1]) + ObjectsIn(fetched[|fetched| - 1])
  {
    var last := |fetched| - 1;
    if last > 0 {
      assert fetched[..last][1..] == fetched[1..][..last - 1];
      TotalOfMore(fetched[1..]);
    }
  }

  /** The event count of a successful fetch is the number of objects in the bodies, whether or not optional ones
      decode. */
  lemma {:induction false} FetchCountsObjects(o: Options, eps: seq<Endpoint>, fetched: seq<Fetched>)
    requires |eps| == |fetched| && RestAll(o, eps, fetched).Ok?
    ensures RestAll(o, eps, fetched).value.eventCount == TotalObjects(fetched)
  {
    hide BodyEffect, BodyDiagnostics, AddDiagnostics;
    if eps != [] {
      FetchCountsObjects(o, eps[..|eps| - 1], fetched[..|eps| - 1]);
      TotalOfMore(fetched);
    }
  }
}
