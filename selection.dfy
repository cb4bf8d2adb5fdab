/**
 * The project filter of `create_scrollable_fig` (app.py, lines 225-227): an
 * empty selection shows every project; otherwise the projects whose name is
 * selected, in their original order.
 */
module Selection {
  import opened Timeline

  function Names(ps: seq<Project>): seq<string> {
    seq(|ps|, k requires 0 <= k < |ps| => ps[k].name)
  }

  /** `[p for p in ps if p["name"] in selected]` */
  function KeepNamed(ps: seq<Project>, selected: seq<string>): (r: seq<Project>)
    ensures |r| <= |ps|
    ensures forall p :: p in r ==> p in ps && p.name in selected
  {
    if ps == [] then []
    else (if ps[0].name in selected then [ps[0]] else []) + KeepNamed(ps[1..], selected)
  }

  /** The filter distributes over concatenation: it keeps the order of the projects. */
  lemma {:induction false} KeepNamedAppend(a: seq<Project>, b: seq<Project>, selected: seq<string>)
    ensures KeepNamed(a + b, selected) == KeepNamed(a, selected) + KeepNamed(b, selected)
  {
    if a != [] {
      assert (a + b)[1..] == a[1..] + b;
      KeepNamedAppend(a[1..], b, selected);
    } else {
      assert a + b == b;
    }
  }

  /** Every project whose name is selected is kept. */
  lemma {:induction false} KeepNamedComplete(ps: seq<Project>, selected: seq<string>, p: Project)
    requires p in ps && p.name in selected
    ensures p in KeepNamed(ps, selected)
  {
    if ps[0] != p {
      KeepNamedComplete(ps[1..], selected, p);
    }
  }

  /** Selecting every name keeps every project. */
  lemma {:induction false} KeepNamedAll(ps: seq<Project>, selected: seq<string>)
    requires forall k :: 0 <= k < |ps| ==> ps[k].name in selected
    ensures KeepNamed(ps, selected) == ps
  {
    if ps != [] {
      KeepNamedAll(ps[1..], selected);
    }
  }

  /** `filtered_projects`: all projects for an empty selection, otherwise those selected. */
  function SelectProjects(ps: seq<Project>, selected: seq<string>): (r: seq<Project>)
    ensures selected == [] ==> r == ps
    ensures selected != [] ==> forall p :: p in r <==> p in ps && p.name in selected
    ensures selected != [] ==> r == KeepNamed(ps, selected)
  {
    var names := if selected == [] then Names(ps) else selected;
    if selected == [] then
      assert forall k :: 0 <= k < |ps| ==> names[k] == ps[k].name;
      KeepNamedAll(ps, names);
      KeepNamed(ps, names)
    else
      assert forall p :: p in ps && p.name in selected ==> p in KeepNamed(ps, names) by {
        forall p | p in ps && p.name in selected ensures p in KeepNamed(ps, names) {
          KeepNamedComplete(ps, names, p);
        }
      }
      KeepNamed(ps, names)
  }
}
