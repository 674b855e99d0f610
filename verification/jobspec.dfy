/** The coordinator's pure helpers: naming the child namespace and choosing the agent image. */
module JobSpec {
  import opened Wrappers
  import opened GoStrings
  import opened KubeApi

  /** The coordinator's own container in its pod. */
  const JobContainerName: string := "kns-job"
  /** The token that replaces `JobContainerName` in the image to select the agent's entry point. */
  const AgentImageToken: string := "kns-pod"
  const NamespacePrefix: string := "network-scan"
  /** The name of the role, the service account and the role binding. */
  const AgentAccount: string := "kns-pod"
  const ServiceName: string := "network-scan"
  const DaemonSetName: string := "network-scan"

  /** `getSuffixFromGeneratedName`: the last `-`-separated token of the pod's generated name. */
  function SuffixOfGeneratedName(name: string): (suffix: string)
    ensures '-' !in suffix
    ensures |suffix| <= |name| && name[|name| - |suffix|..] == suffix
    ensures |suffix| == |name| || name[|name| - |suffix| - 1] == '-'
  {
    LastDashTokenIsTail(name);
    LastDashToken(name)
  }

  /** `fmt.Sprintf("%s-%s", "network-scan", suffix)`: the child namespace named after the pod. */
  function ChildNamespace(podName: string): (ns: string)
    ensures |NamespacePrefix| + 1 <= |ns| <= |NamespacePrefix| + 1 + |podName|
    ensures ns[..|NamespacePrefix| + 1] == NamespacePrefix + "-"
  {
    NamespacePrefix + "-" + SuffixOfGeneratedName(podName)
  }

  /**
    After the prefix, the child namespace holds a dash-free tail of the pod's
    name that is either the whole name or follows its last dash.
  */
  lemma ChildNamespaceEndsWithPodSuffix(podName: string)
    ensures var ns := ChildNamespace(podName);
      && '-' !in ns[|NamespacePrefix| + 1..]
      && podName[|podName| - (|ns| - |NamespacePrefix| - 1)..] == ns[|NamespacePrefix| + 1..]
      && (|ns| - |NamespacePrefix| - 1 == |podName| || podName[|podName| - (|ns| - |NamespacePrefix| - 1) - 1] == '-')
  {
    var suffix := SuffixOfGeneratedName(podName);
    assert ChildNamespace(podName)[|NamespacePrefix| + 1..] == suffix;
  }

  /**
    `replaceNameInImage`: replace the last occurrence of `from` in `img` by `to`;
    an image without `from` is returned unchanged.
  */
  function ReplaceNameInImage(img: string, from: string, to: string): (r: string)
    ensures (forall j :: !OccursAt(img, from, j)) ==> r == img
    ensures (exists j :: OccursAt(img, from, j)) ==> |r| == |img| - |from| + |to|
  {
    var idx := LastIndex(img, from);
    if idx < 0 then img else img[..idx] + to + img[idx + |from|..]
  }

  /**
    When `from` last occurs at `i`, only that occurrence is replaced: the text
    before and after it is kept, and every earlier occurrence that ends before
    it survives.
  */
  lemma ReplaceOnlyLastOccurrence(img: string, from: string, to: string, i: int)
    requires OccursAt(img, from, i)
    requires forall j :: OccursAt(img, from, j) ==> j <= i
    ensures ReplaceNameInImage(img, from, to) == img[..i] + to + img[i + |from|..]
    ensures ReplaceNameInImage(img, from, to)[..i] == img[..i]
    ensures ReplaceNameInImage(img, from, to)[i..i + |to|] == to
    ensures ReplaceNameInImage(img, from, to)[i + |to|..] == img[i + |from|..]
    ensures forall j :: OccursAt(img, from, j) && j + |from| <= i ==> OccursAt(ReplaceNameInImage(img, from, to), from, j)
  {
    var r := ReplaceNameInImage(img, from, to);
    assert LastIndex(img, from) == i;
    forall j | OccursAt(img, from, j) && j + |from| <= i
      ensures OccursAt(r, from, j)
    {
      assert r[j..j + |from|] == img[..i][j..j + |from|];
    }
  }

  /** The index of the first container called `name`, or -1 if there is none. */
  function FirstNamed(containers: seq<Container>, name: string): (k: int)
    ensures -1 <= k < |containers|
    ensures k >= 0 ==> containers[k].name == name
    ensures forall j :: 0 <= j < |containers| && (k < 0 || j < k) ==> containers[j].name != name
  {
    if |containers| == 0 then -1
    else if containers[0].name == name then 0
    else
      var k := FirstNamed(containers[1..], name);
      if k < 0 then -1 else k + 1
  }

  /** The image-lookup loop of the coordinator: the image of the first container named `kns-job`. */
  function JobImage(containers: seq<Container>): (img: Option<string>)
    ensures img.None? <==> forall j :: 0 <= j < |containers| ==> containers[j].name != JobContainerName
    ensures img.Some? ==> img.value == containers[FirstNamed(containers, JobContainerName)].image
  {
    var k := FirstNamed(containers, JobContainerName);
    if k < 0 then None else Some(containers[k].image)
  }

  /** The image the agents run: the coordinator's image with its last `kns-job` turned into `kns-pod`. */
  function AgentImage(jobImage: string): string {
    ReplaceNameInImage(jobImage, JobContainerName, AgentImageToken)
  }

  /** An image naming `kns-job` twice keeps the first and has the tag's `kns-job` turned into `kns-pod`. */
  lemma AgentImageRewritesLastToken()
    ensures AgentImage("kns-job:kns-job") == "kns-job:kns-pod"
  {
    var a := "kns-job:kns-job";
    assert OccursAt(a, JobContainerName, 8);
    assert 'k' !in a[9..];
    forall m | 9 <= m < |a|
      ensures a[m] != 'k'
    {
      assert a[m] == a[9..][m - 9];
    }
    OccurrencesStartBefore(a, JobContainerName, 9);
    ReplaceOnlyLastOccurrence(a, JobContainerName, AgentImageToken, 8);
  }

  /** An image that does not mention `kns-job` is used as it is. */
  lemma AgentImageWithoutTokenUnchanged(img: string)
    requires forall j :: !OccursAt(img, JobContainerName, j)
    ensures AgentImage(img) == img
  {
  }

  /** For instance `scanner:v1`, which holds no `k` at all. */
  lemma AgentImageOfPlainImage()
    ensures AgentImage("scanner:v1") == "scanner:v1"
  {
    assert 'k' !in "scanner:v1";
    OccurrencesStartBefore("scanner:v1", JobContainerName, 0);
  }

  /** An occurrence starts with the first character of what occurs, so none starts where that character is absent. */
  lemma OccurrencesStartBefore(s: string, sub: string, lo: nat)
    requires 1 <= |sub|
    requires forall m :: lo <= m < |s| ==> s[m] != sub[0]
    ensures forall j :: OccursAt(s, sub, j) ==> j < lo
  {
    forall j | OccursAt(s, sub, j)
      ensures j < lo
    {
      assert s[j] == s[j..j + |sub|][0];
    }
  }

}
