/**
 * `Helpers.extractKey` of src/diff.js: the identity of a screenshot read
 * from the last four segments of its path, `.../engine/model/variant/browser`.
 */
module ArtifactKey {
  import opened Wrappers
  import opened Strings

  /** The identity tuple of one screenshot; `browser` is the file name, extension included. */
  datatype Key = Key(model: string, browser: string, engine: string, variant: string)

  /** The macOS folder metadata file that is never a screenshot. */
  const DsStore := ".DS_Store"

  /**
   * A segment missing from a short path is `undefined`; every use of the key
   * (object property names and template strings) turns it into this text.
   */
  const Undefined := "undefined"

  function Reverse(s: seq<string>): (r: seq<string>)
    ensures |r| == |s|
    ensures forall i :: 0 <= i < |s| ==> r[i] == s[|s| - 1 - i]
  {
    if s == [] then [] else Reverse(s[1..]) + [s[0]]
  }

  /** `bits[i]` of the reversed segment list. */
  function At(bits: seq<string>, i: nat): string {
    if i < |bits| then bits[i] else Undefined
  }

  function ExtractKey(pathname: string): (k: Option<Key>)
    ensures k.None? <==> Split(pathname, '/')[|Split(pathname, '/')| - 1] == DsStore
  {
    var bits := Reverse(Split(pathname, '/'));
    if bits[0] == DsStore then None
    else Some(Key(model := At(bits, 2), browser := At(bits, 0), engine := At(bits, 3), variant := At(bits, 1)))
  }

  predicate IsSegment(s: string) {
    '/' !in s
  }

  /**
   * For a path `dir/engine/model/variant/browser` ending in four proper
   * segments, the key names exactly those segments, whatever `dir` holds;
   * only a `.DS_Store` file name yields no key.
   */
  lemma ExtractKeyOfArtifactPath(dir: string, engine: string, model: string, variant: string, browser: string)
    requires IsSegment(engine) && IsSegment(model) && IsSegment(variant) && IsSegment(browser)
    ensures ExtractKey(dir + "/" + engine + "/" + model + "/" + variant + "/" + browser)
         == if browser == DsStore then None else Some(Key(model, browser, engine, variant))
  {
    var p := dir + "/" + engine + "/" + model + "/" + variant + "/" + browser;
    SplitConcat(dir + "/" + engine + "/" + model + "/" + variant, browser, '/');
    SplitConcat(dir + "/" + engine + "/" + model, variant, '/');
    SplitConcat(dir + "/" + engine, model, '/');
    SplitConcat(dir, engine, '/');
    SplitNoSeparator(engine, '/');
    SplitNoSeparator(model, '/');
    SplitNoSeparator(variant, '/');
    SplitNoSeparator(browser, '/');
    var parts := Split(p, '/');
    assert parts == Split(dir, '/') + [engine] + [model] + [variant] + [browser];
    var bits := Reverse(parts);
    assert bits[0] == browser && bits[1] == variant && bits[2] == model && bits[3] == engine;
  }

  /** A path shorter than four segments reads the missing positions as `undefined`. */
  lemma ExtractKeyOfShortPath(variant: string, browser: string)
    requires IsSegment(variant) && IsSegment(browser) && browser != DsStore
    ensures ExtractKey(variant + "/" + browser) == Some(Key(Undefined, browser, Undefined, variant))
  {
    SplitConcat(variant, browser, '/');
    SplitNoSeparator(variant, '/');
    SplitNoSeparator(browser, '/');
  }

  /** The browser is the last segment of the path and never contains a separator. */
  lemma ExtractKeyBrowser(pathname: string)
    requires ExtractKey(pathname).Some?
    ensures IsSegment(ExtractKey(pathname).value.browser)
    ensures ExtractKey(pathname).value.browser == Split(pathname, '/')[|Split(pathname, '/')| - 1]
  {
  }
}
