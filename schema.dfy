/** Schema resolution: which data variable holds the precipitation field and
    which coordinates hold latitude and longitude. */
module Schema {
  import opened GpmTypes

  /** The precipitation variable names, in priority order. */
  const Candidates: seq<string> := ["precipitationCal", "precipitation", "precip"]

  /** The names one request works with, once resolved. */
  datatype Binding = Binding(varName: string, latName: string, lonName: string)

  /** `next((n for n in names if p(n)), None)`: the first name that satisfies
      `p`, or None when no name does. */
  function First(names: seq<string>, p: string -> bool): (r: Option<string>)
    ensures r.None? <==> forall k :: 0 <= k < |names| ==> !p(names[k])
    ensures r.Some? ==>
      exists k :: 0 <= k < |names| && names[k] == r.value && p(r.value)
        && forall q :: 0 <= q < k ==> !p(names[q])
  {
    if names == [] then None
    else if p(names[0]) then Some(names[0])
    else
      var r := First(names[1..], p);
      assert forall k :: 1 <= k < |names| ==> names[k] == names[1..][k - 1];
      r
  }

  /** The name at index `k` is the one `First` picks when it satisfies `p`
      and no name before it does. */
  lemma {:induction false} FirstAt(names: seq<string>, p: string -> bool, k: nat)
    requires k < |names| && p(names[k])
    requires forall q :: 0 <= q < k ==> !p(names[q])
    ensures First(names, p) == Some(names[k])
  {
    if k > 0 {
      assert forall q :: 0 <= q < k - 1 ==> names[1..][q] == names[q + 1];
      FirstAt(names[1..], p, k - 1);
    }
  }

  function LowerChar(c: char): char {
    if 'A' <= c <= 'Z' then (c as int + 32) as char else c
  }

  /** `s.lower()` on ASCII letters: each capital becomes its small letter,
      every other character stays. */
  function Lower(s: string): (r: string)
    ensures |r| == |s|
    ensures forall i :: 0 <= i < |s| ==> ('A' <= s[i] <= 'Z' ==> 'a' <= r[i] <= 'z' && r[i] as int - s[i] as int == 32)
    ensures forall i :: 0 <= i < |s| ==> (!('A' <= s[i] <= 'Z') ==> r[i] == s[i])
  {
    seq(|s|, i requires 0 <= i < |s| => LowerChar(s[i]))
  }

  /** `sub in s` on strings: `sub` occurs in `s` as a contiguous run. */
  predicate Contains(s: string, sub: string)
    ensures Contains(s, sub) ==> |sub| <= |s|
    ensures |sub| == 0 ==> Contains(s, sub)
    decreases |s|
  {
    sub <= s || (|s| > 0 && Contains(s[1..], sub))
  }

  lemma {:induction false} ContainsAt(s: string, sub: string)
    ensures Contains(s, sub) <==> exists i :: 0 <= i <= |s| - |sub| && sub <= s[i..]
    decreases |s|
  {
    if |s| > 0 {
      ContainsAt(s[1..], sub);
      if Contains(s[1..], sub) {
        var i :| 0 <= i <= |s| - 1 - |sub| && sub <= s[1..][i..];
        assert s[1..][i..] == s[i + 1..];
      }
      if i :| 0 <= i <= |s| - |sub| && sub <= s[i..] {
        if i > 0 {
          assert s[1..][i - 1..] == s[i..];
          assert 0 <= i - 1 <= |s[1..]| - |sub| && sub <= s[1..][i - 1..];
          assert Contains(s[1..], sub);
        } else {
          assert s[0..] == s;
        }
      }
      if sub <= s {
        assert s[0..] == s;
      }
    } else {
      assert s[0..] == s;
    }
  }

  /** A string never contains a run that starts with a character it lacks. */
  lemma {:induction false} LacksFirstChar(s: string, sub: string)
    requires |sub| > 0 && forall i :: 0 <= i < |s| ==> s[i] != sub[0]
    ensures !Contains(s, sub)
    decreases |s|
  {
    if |s| > 0 {
      assert s[0] != sub[0];
      assert !(sub <= s);
      assert forall i :: 0 <= i < |s| - 1 ==> s[1..][i] == s[i + 1];
      LacksFirstChar(s[1..], sub);
    }
  }

  /** A coordinate name whose lower-cased form contains `key`. */
  predicate NameMatches(name: string, key: string) {
    Contains(Lower(name), key)
  }

  /** `next((v for v in candidates if v in ds), None)` */
  function ResolveVariable(ds: Dataset): (r: Option<string>)
    ensures r.None? <==> forall k :: 0 <= k < |Candidates| ==> Candidates[k] !in ds.dataVars
    ensures r.Some? ==> r.value in Candidates && r.value in ds.dataVars
  {
    First(Candidates, v => v in ds.dataVars)
  }

  /** `next((k for k in ds.coords if key in k.lower()), key)` */
  function CoordName(ds: Dataset, key: string): (r: string)
    ensures (forall k :: 0 <= k < |ds.coordNames| ==> !NameMatches(ds.coordNames[k], key)) ==> r == key
    ensures (exists k :: 0 <= k < |ds.coordNames| && NameMatches(ds.coordNames[k], key)) ==>
      exists k :: 0 <= k < |ds.coordNames| && ds.coordNames[k] == r && NameMatches(r, key)
        && forall q :: 0 <= q < k ==> !NameMatches(ds.coordNames[q], key)
  {
    match First(ds.coordNames, n => NameMatches(n, key))
    case Some(n) => n
    case None => key
  }

  /** The chosen variable is the first candidate the dataset holds; none is
      chosen exactly when it holds no candidate. */
  lemma ResolveVariablePriority(ds: Dataset)
    ensures "precipitationCal" in ds.dataVars ==> ResolveVariable(ds) == Some("precipitationCal")
    ensures "precipitationCal" !in ds.dataVars && "precipitation" in ds.dataVars ==>
      ResolveVariable(ds) == Some("precipitation")
    ensures "precipitationCal" !in ds.dataVars && "precipitation" !in ds.dataVars && "precip" in ds.dataVars ==>
      ResolveVariable(ds) == Some("precip")
    ensures ResolveVariable(ds).None? <==>
      "precipitationCal" !in ds.dataVars && "precipitation" !in ds.dataVars && "precip" !in ds.dataVars
  {
    var p := v => v in ds.dataVars;
    assert Candidates[1..] == ["precipitation", "precip"];
    assert Candidates[1..][1..] == ["precip"];
    assert Candidates[1..][1..][1..] == [];
  }

  /** Coordinate names are matched case-insensitively, in coordinate order. */
  lemma CoordNameIgnoresCase()
    ensures CoordName(Dataset(map[], ["time", "Lon", "Lat"], map[]), "lat") == "Lat"
    ensures CoordName(Dataset(map[], ["time", "Lon", "Lat"], map[]), "lon") == "Lon"
  {
    var names := ["time", "Lon", "Lat"];
    assert Lower("time") == "time";
    assert Lower("Lon") == "lon";
    assert Lower("Lat") == "lat";
    LacksFirstChar("time", "lat");
    LacksFirstChar("time", "lon");
    assert "lat"[1] != "lon"[1] && "lon"[1..] == "on";
    LacksFirstChar("on", "lat");
    FirstAt(names, n => NameMatches(n, "lat"), 2);
    FirstAt(names, n => NameMatches(n, "lon"), 1);
  }

  /** The first matching coordinate wins, even over an exact name. */
  lemma CoordNameFirstWins()
    ensures CoordName(Dataset(map[], ["lat_bnds", "lat"], map[]), "lat") == "lat_bnds"
  {
    assert Lower("lat_bnds") == "lat_bnds" && "lat" <= "lat_bnds";
    FirstAt(["lat_bnds", "lat"], n => NameMatches(n, "lat"), 0);
  }

  /** With no matching coordinate the literal name is used, even when the
      dataset names its axes otherwise. */
  lemma CoordNameDefaults()
    ensures CoordName(Dataset(map[], ["y", "x"], map[]), "lat") == "lat"
  {
    assert Lower("y") == "y" && Lower("x") == "x";
    LacksFirstChar("y", "lat");
    LacksFirstChar("x", "lat");
  }
}
