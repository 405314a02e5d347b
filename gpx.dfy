/** The GPX 1.1 document generateGPX (src/main.ts) builds from the recorded
    path: a Topografix GPX 1.1 root with metadata, one track with one track
    segment, and one `trkpt` element per path point, each stamped with the
    export time. Number formatting and the locale date are parameters. */
module Gpx {
  import opened Types

  /** Everything before the first track point. */
  function Header(now: string, dateLabel: string): string
  {
    "<?xml version=\"1.0\" encoding=\"UTF-8\"?>\n"
    + "<gpx version=\"1.1\" creator=\"iHiker\" xmlns=\"http://www.topografix.com/GPX/1/1\">\n"
    + "  <metadata>\n"
    + "    <name>iHiker Track</name>\n"
    + "    <time>" + now + "</time>\n"
    + "  </metadata>\n"
    + "  <trk>\n"
    + "    <name>Hiking Track " + dateLabel + "</name>\n"
    + "    <trkseg>\n"
  }

  /** One track point element; its time is the export time, not the fix's. */
  function Trkpt(p: MapPoint, now: string, show: real -> string): string
  {
    "      <trkpt lat=\"" + show(p.lat) + "\" lon=\"" + show(p.lng) + "\">\n"
    + "        <time>" + now + "</time>\n"
    + "      </trkpt>\n"
  }

  /** The track point elements of a path, one per point, in path order. */
  function Elements(path: seq<MapPoint>, now: string, show: real -> string): (es: seq<string>)
    ensures |es| == |path|
    ensures forall i :: 0 <= i < |path| ==> es[i] == Trkpt(path[i], now, show)
  {
    seq(|path|, i requires 0 <= i < |path| => Trkpt(path[i], now, show))
  }

  /** The concatenation of a list of strings. */
  function Concat(parts: seq<string>): string
  {
    if parts == [] then "" else Concat(parts[..|parts| - 1]) + parts[|parts| - 1]
  }

  /** The point section of the document. */
  function Trkpts(path: seq<MapPoint>, now: string, show: real -> string): string
  {
    Concat(Elements(path, now, show))
  }

  /** Everything after the last track point. */
  const Footer: string := "    </trkseg>\n  </trk>\n</gpx>"

  /** The whole document for a path. */
  function Document(path: seq<MapPoint>, now: string, dateLabel: string, show: real -> string): string
  {
    Header(now, dateLabel) + Trkpts(path, now, show) + Footer
  }

  lemma {:induction false} ConcatAppend(a: seq<string>, b: seq<string>)
    ensures Concat(a + b) == Concat(a) + Concat(b)
    decreases |b|
  {
    if b == [] {
      assert a + b == a;
    } else {
      assert (a + b)[..|a + b| - 1] == a + b[..|b| - 1];
      ConcatAppend(a, b[..|b| - 1]);
    }
  }

  /** The elements of two consecutive stretches of path are the elements of
      the first followed by those of the second. */
  lemma TrkptsAppend(a: seq<MapPoint>, b: seq<MapPoint>, now: string, show: real -> string)
    ensures Trkpts(a + b, now, show) == Trkpts(a, now, show) + Trkpts(b, now, show)
  {
    assert Elements(a + b, now, show) == Elements(a, now, show) + Elements(b, now, show);
    ConcatAppend(Elements(a, now, show), Elements(b, now, show));
  }

  /** Appending a point appends its element. */
  lemma TrkptsSnoc(path: seq<MapPoint>, p: MapPoint, now: string, show: real -> string)
    ensures Trkpts(path + [p], now, show) == Trkpts(path, now, show) + Trkpt(p, now, show)
  {
    TrkptsAppend(path, [p], now, show);
    assert Elements([p], now, show) == [Trkpt(p, now, show)];
    assert Concat([Trkpt(p, now, show)]) == Trkpt(p, now, show) by {
      assert [Trkpt(p, now, show)][..0] == [];
    }
  }

  /** One loop step of the export: extending the exported prefix of the
      path by its next point appends that point's element to the text. */
  lemma TrkptsStep(lead: string, path: seq<MapPoint>, i: int, now: string, show: real -> string)
    requires 0 <= i < |path|
    ensures lead + Trkpts(path[..i + 1], now, show) == lead + Trkpts(path[..i], now, show) + Trkpt(path[i], now, show)
  {
    assert path[..i + 1] == path[..i] + [path[i]];
    TrkptsSnoc(path[..i], path[i], now, show);
  }

  /** Exactly one element per point, in order: the document's point section
      splits at every index i into the elements before point i, the element
      of point i, and the elements after it. */
  lemma TrkptsAt(path: seq<MapPoint>, i: int, now: string, show: real -> string)
    requires 0 <= i < |path|
    ensures Trkpts(path, now, show)
         == Trkpts(path[..i], now, show) + Trkpt(path[i], now, show) + Trkpts(path[i + 1..], now, show)
  {
    assert path == path[..i + 1] + path[i + 1..];
    TrkptsAppend(path[..i + 1], path[i + 1..], now, show);
    assert path[..i + 1] == path[..i] + [path[i]];
    TrkptsSnoc(path[..i], path[i], now, show);
  }
}
