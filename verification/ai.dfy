/** The upscaling worker: a loop that receives requests `[model, gpu, path, images]` and answers
    each with a fixed sequence of messages, namely information lines about the set-up, an
    `Upscaling:` line, a progress line per frame of a video, one upscaled picture per input
    picture and a final `done`. The network is a parameter: its raw output for a weights file
    and a scale factor on an input picture. */
module Worker {
  import opened Media
  import opened Text

  // ---------------------------------------------------------------------------------------
  // Messages

  /** The fixed text in front of each kind of line the worker sends; a `Plain` line is its
      value alone. */
  datatype Caption = TorchVersion | CudaVersion | CudnnVersion | RunningOn | ScaleFactorIs
                   | ModelName | GpuId | Plain

  /** What the worker sends back. A text message is kept as what its f-string is made of:
      a caption and a text value, a caption and a number, the path of the file being
      upscaled, or frame `frame` of `total`; `Rendered` gives the text itself. */
  datatype Message =
    | Line(caption: Caption, value: string)
    | Number(caption: Caption, count: nat)
    | Starting(path: string)
    | Progress(frame: nat, total: nat)
    | Picture(image: Image)

  function CaptionText(c: Caption): string
  {
    match c
    case TorchVersion => "Pytorch version: "
    case CudaVersion => "Cuda version: "
    case CudnnVersion => "Cudnn version: "
    case RunningOn => "Running on: "
    case ScaleFactorIs => "Scale factor: "
    case ModelName => "Model name: "
    case GpuId => "GPU ID: "
    case Plain => ""
  }

  /** The text of a text message, as the receiver reads it: `Upscaling: ` and the file name
      (the text after the path's last `/`), or `Upscaling frame: i of n (p%)` with the
      percentage of `ProgressPercent`. */
  function Rendered(m: Message): string
    requires !m.Picture?
  {
    match m
    case Line(c, value) => CaptionText(c) + value
    case Number(c, count) => CaptionText(c) + NatToString(count)
    case Starting(path) => "Upscaling: " + AfterLast(path, '/')
    case Progress(frame, total) =>
      "Upscaling frame: " + NatToString(frame) + " of " + NatToString(total)
        + " (" + NatToString(ProgressPercent(frame, total)) + "%)"
  }

  /** The percentage shown for frame `frame` of `total`: `Percent(frame - 1, total)`. The
      worker numbers frames from 1 to `total` (see `Heading`); any other number shows 0. */
  function ProgressPercent(frame: nat, total: nat): (r: nat)
    ensures r <= 100
    ensures 1 <= frame <= total ==> r == Percent(frame - 1, total)
  {
    if 1 <= frame <= total then Percent(frame - 1, total) else 0
  }

  /** The message that closes every reply. */
  const Done: Message := Line(Plain, "done")

  /** A text message without a caption. */
  predicate IsPlain(m: Message)
  {
    (m.Line? || m.Number?) && m.caption == Plain
  }

  /** A text message that is not a plain line has a caption longer than four characters,
      so it never reads `done`. */
  lemma OnlyPlainLinesReadDone(m: Message)
    requires !m.Picture? && !IsPlain(m)
    ensures Rendered(m) != "done"
  {
    assert |"done"| == 4;
    match m
    case Line(c, value) =>
      assert Rendered(m) == CaptionText(c) + value;
    case Number(c, count) =>
      assert Rendered(m) == CaptionText(c) + NatToString(count);
    case Starting(path) =>
      assert Rendered(m) == "Upscaling: " + AfterLast(path, '/');
    case Progress(frame, total) =>
      var rest := NatToString(frame) + " of " + NatToString(total)
        + " (" + NatToString(ProgressPercent(frame, total)) + "%)";
      assert Rendered(m) == "Upscaling frame: " + rest;
  }

  // ---------------------------------------------------------------------------------------
  // Requests, set-up and the network

  /** One request of the application: model name, GPU number, file path and pictures. */
  datatype Request = Request(model: string, gpu: nat, path: string, images: seq<Image>)

  /** What the worker reports about its set-up: library versions as printed, and whether a
      CUDA device is available. */
  datatype Environment = Environment(torchVersion: string, cudaVersion: string, cudnnVersion: string, cudaAvailable: bool)

  /** What a network is built from: the weights file and the scale factor. */
  datatype Weights = Weights(path: string, scale: nat)

  /** The network: its raw output for some weights on an input picture. */
  type Network = (Weights, Image) -> Image

  /** What the worker's `model` variable holds: nothing yet, a model name (between taking the
      request's name and building the network), or the network built from some weights. */
  datatype ModelSlot = NoModel | Name(name: string) | Loaded(weights: Weights)

  /** The scale factor of a model: 2 for `BSRGANx2`, 4 for every other name. */
  function ScaleFactor(name: string): (r: nat)
    ensures r == 2 <==> name == "BSRGANx2"
    ensures r == 2 || r == 4
  {
    if name in ["BSRGANx2"] then 2 else 4
  }

  /** The weights file of a model: `<name>.pth` joined to the `model_zoo` directory. */
  function ModelPath(name: string): string
  {
    PathJoin("model_zoo", name + ".pth")
  }

  /** A model name that is not an absolute path gives `model_zoo/<name>.pth`. */
  lemma ModelPathInZoo(name: string)
    requires name == [] || name[0] != '/'
    ensures ModelPath(name) == "model_zoo/" + name + ".pth"
  {
    assert (name + ".pth")[0] != '/';
  }

  function WeightsOf(name: string): Weights
  {
    Weights(ModelPath(name), ScaleFactor(name))
  }

  function Device(env: Environment): string
  {
    if env.cudaAvailable then "cuda" else "cpu"
  }

  /** The lines sent when the worker (re)loads a model: versions, device, scale factor, model
      name and, on a CUDA device, the GPU number. */
  function InfoLines(env: Environment, name: string, gpu: nat): (r: seq<Message>)
    ensures |r| == if env.cudaAvailable then 7 else 6
  {
    [ Line(TorchVersion, env.torchVersion),
      Line(CudaVersion, env.cudaVersion),
      Line(CudnnVersion, env.cudnnVersion),
      Line(RunningOn, Device(env)),
      Number(ScaleFactorIs, ScaleFactor(name)),
      Line(ModelName, name) ]
    + (if env.cudaAvailable then [Number(GpuId, gpu)] else [])
  }

  /** The information lines are captioned text: no picture, nothing that reads `done`. */
  lemma InfoLinesAreText(env: Environment, name: string, gpu: nat)
    ensures NoDone(InfoLines(env, name, gpu)) && Pictures(InfoLines(env, name, gpu)) == []
  {
    NoPicturesAmongText(InfoLines(env, name, gpu));
  }

  // ---------------------------------------------------------------------------------------
  // The reply to one request

  /** The upscaled picture for one input: the network's output resized back to the input's
      size. */
  function Enhance(net: Network, w: Weights, img: Image): (r: Image)
    ensures r.width == img.width && r.height == img.height
  {
    Resize(net(w, img), img.width, img.height)
  }

  /** The upscaled pictures for a list of inputs, in input order. */
  function EnhanceAll(net: Network, w: Weights, images: seq<Image>): (r: seq<Image>)
    ensures |r| == |images|
    ensures forall k :: 0 <= k < |r| ==> r[k] == Enhance(net, w, images[k])
  {
    if images == [] then []
    else EnhanceAll(net, w, images[..|images| - 1]) + [Enhance(net, w, images[|images| - 1])]
  }

  /** Upscaled pictures have the sizes of their inputs, one for one. */
  lemma EnhanceAllKeepsSizes(net: Network, w: Weights, images: seq<Image>)
    ensures |EnhanceAll(net, w, images)| == |images|
    ensures forall k :: 0 <= k < |images| ==>
      EnhanceAll(net, w, images)[k].width == images[k].width
      && EnhanceAll(net, w, images)[k].height == images[k].height
  {
  }

  /** `round((i + 1) * 100 / n)`: the progress of frame `i + 1` of `n`, in percent. */
  function Percent(i: nat, n: nat): (r: nat)
    requires i < n
    ensures r <= 100
    ensures i == n - 1 ==> r == 100
  {
    RoundAtLeast((i + 1) * 100, n, if i == n - 1 then 100 else 0);
    RoundAtMost((i + 1) * 100, n, 100);
    RoundHalfEven((i + 1) * 100, n)
  }

  /** Progress never goes back from one frame to a later one. */
  lemma PercentMonotone(i: nat, j: nat, n: nat)
    requires i <= j < n
    ensures Percent(i, n) <= Percent(j, n)
  {
    RoundMonotone((i + 1) * 100, (j + 1) * 100, n);
  }

  /** The text messages in front of picture `i` of a request: the `Upscaling:` line before
      the first picture, and a progress line when the request has more than one picture. */
  function Heading(req: Request, i: nat): (r: seq<Message>)
    requires i < |req.images|
    ensures |r| == (if i == 0 then 1 else 0) + (if |req.images| > 1 then 1 else 0)
    ensures i == 0 ==> r[0] == Starting(req.path)
    ensures |req.images| > 1 ==> r[|r| - 1] == Progress(i + 1, |req.images|)
  {
    var n := |req.images|;
    (if i == 0 then [Starting(req.path)] else []) + (if n > 1 then [Progress(i + 1, n)] else [])
  }

  /** The messages for picture `i` of a request: its heading, then the upscaled picture. */
  function FrameBlock(net: Network, w: Weights, req: Request, i: nat): (r: seq<Message>)
    requires i < |req.images|
    ensures |r| > 0 && r[|r| - 1] == Picture(Enhance(net, w, req.images[i]))
    ensures i == 0 ==> r[0] == Starting(req.path)
  {
    Heading(req, i) + [Picture(Enhance(net, w, req.images[i]))]
  }

  /** The block of picture `i` holds that picture, upscaled, and nothing that reads `done`. */
  lemma BlockContents(net: Network, w: Weights, req: Request, i: nat)
    requires i < |req.images|
    ensures NoDone(FrameBlock(net, w, req, i))
    ensures Pictures(FrameBlock(net, w, req, i)) == [Enhance(net, w, req.images[i])]
  {
    var head, last := Heading(req, i), [Picture(Enhance(net, w, req.images[i]))];
    NoPicturesAmongText(head);
    PicturesOfConcat(head, last);
    NoDoneConcat(head, last);
    assert last[..0] == [];
  }

  /** The messages for the first `k` pictures of a request. */
  function Frames(net: Network, w: Weights, req: Request, k: nat): (r: seq<Message>)
    requires k <= |req.images|
    ensures k > 0 ==> |r| > 0 && r[|r| - 1] == Picture(Enhance(net, w, req.images[k - 1]))
  {
    if k == 0 then [] else Frames(net, w, req, k - 1) + FrameBlock(net, w, req, k - 1)
  }

  /** Everything the worker sends for one request. The model is reloaded, and the
      information lines sent, on every request. */
  function Reply(env: Environment, net: Network, req: Request): (r: seq<Message>)
    ensures |r| > |InfoLines(env, req.model, req.gpu)| && r[|r| - 1] == Done
    ensures r[..|InfoLines(env, req.model, req.gpu)|] == InfoLines(env, req.model, req.gpu)
  {
    InfoLines(env, req.model, req.gpu) + Frames(net, WeightsOf(req.model), req, |req.images|) + [Done]
  }

  /** Everything the worker sends for a run of requests, in order. */
  function Transcript(env: Environment, net: Network, requests: seq<Request>): (r: seq<Message>)
    ensures |r| >= |requests|
    ensures requests != [] ==> r[|r| - 1] == Done
  {
    if requests == [] then []
    else Transcript(env, net, requests[..|requests| - 1]) + Reply(env, net, requests[|requests| - 1])
  }

  // ---------------------------------------------------------------------------------------
  // What a reply contains

  /** The pictures among some messages, in order. */
  function Pictures(msgs: seq<Message>): (r: seq<Image>)
    ensures |r| <= |msgs|
  {
    if msgs == [] then []
    else Pictures(msgs[..|msgs| - 1]) + (if msgs[|msgs| - 1].Picture? then [msgs[|msgs| - 1].image] else [])
  }

  lemma {:induction false} PicturesOfConcat(a: seq<Message>, b: seq<Message>)
    ensures Pictures(a + b) == Pictures(a) + Pictures(b)
  {
    if b == [] {
      assert a + b == a;
    } else {
      var init := b[..|b| - 1];
      assert (a + b)[..|a + b| - 1] == a + init;
      assert (a + b)[|a + b| - 1] == b[|b| - 1];
      PicturesOfConcat(a, init);
    }
  }

  lemma {:induction false} NoPicturesAmongText(msgs: seq<Message>)
    requires forall k :: 0 <= k < |msgs| ==> !msgs[k].Picture?
    ensures Pictures(msgs) == []
  {
    if msgs != [] {
      NoPicturesAmongText(msgs[..|msgs| - 1]);
    }
  }

  /** No message of `msgs` is plain, so none reads `done` (see `OnlyPlainLinesReadDone`). */
  predicate NoDone(msgs: seq<Message>)
  {
    forall k :: 0 <= k < |msgs| ==> !IsPlain(msgs[k])
  }

  lemma NoDoneConcat(a: seq<Message>, b: seq<Message>)
    requires NoDone(a) && NoDone(b)
    ensures NoDone(a + b)
  {
    assert forall k :: |a| <= k < |a + b| ==> (a + b)[k] == b[k - |a|];
  }

  /** The messages for the pictures of a request never read `done`. */
  lemma {:induction false} FramesAreNotDone(net: Network, w: Weights, req: Request, k: nat)
    requires k <= |req.images|
    ensures NoDone(Frames(net, w, req, k))
  {
    if k > 0 {
      FramesAreNotDone(net, w, req, k - 1);
      BlockContents(net, w, req, k - 1);
      NoDoneConcat(Frames(net, w, req, k - 1), FrameBlock(net, w, req, k - 1));
    }
  }

  /** The pictures of the first `k` blocks are the first `k` inputs, upscaled, in order. */
  lemma {:induction false} FramesPictures(net: Network, w: Weights, req: Request, k: nat)
    requires k <= |req.images|
    ensures Pictures(Frames(net, w, req, k)) == EnhanceAll(net, w, req.images[..k])
  {
    if k > 0 {
      FramesPictures(net, w, req, k - 1);
      BlockContents(net, w, req, k - 1);
      PicturesOfConcat(Frames(net, w, req, k - 1), FrameBlock(net, w, req, k - 1));
      var inputs := req.images[..k];
      assert inputs[..k - 1] == req.images[..k - 1];
      assert EnhanceAll(net, w, inputs) == EnhanceAll(net, w, inputs[..k - 1]) + [Enhance(net, w, inputs[k - 1])];
    }
  }

  /** The number of messages for the first `k` pictures: one picture each, one `Upscaling:`
      line when there is a picture, and one progress line each only when the request has
      more than one picture. */
  lemma {:induction false} FramesLength(net: Network, w: Weights, req: Request, k: nat)
    requires k <= |req.images|
    ensures |Frames(net, w, req, k)| == k + (if k > 0 then 1 else 0) + (if |req.images| > 1 then k else 0)
  {
    if k > 0 {
      FramesLength(net, w, req, k - 1);
    }
  }

  /** A reply carries exactly the upscaled inputs: one per input, in input order, each of its
      input's size (see `EnhanceAllKeepsSizes`). */
  lemma ReplyPictures(env: Environment, net: Network, req: Request)
    ensures Pictures(Reply(env, net, req)) == EnhanceAll(net, WeightsOf(req.model), req.images)
  {
    var w := WeightsOf(req.model);
    var info, frames := InfoLines(env, req.model, req.gpu), Frames(net, w, req, |req.images|);
    InfoLinesAreText(env, req.model, req.gpu);
    PicturesOfConcat(info, frames);
    FramesPictures(net, w, req, |req.images|);
    assert req.images[..|req.images|] == req.images;
    assert Pictures(info + frames) == EnhanceAll(net, w, req.images);
    PicturesBeforeText(info + frames, Done);
  }

  /** A message that is not a picture adds no picture. */
  lemma PicturesBeforeText(msgs: seq<Message>, m: Message)
    requires !m.Picture?
    ensures Pictures(msgs + [m]) == Pictures(msgs)
  {
    assert (msgs + [m])[..|msgs|] == msgs;
  }

  /** A reply ends with `done`, and no earlier message of it reads `done`, even for a request
      without pictures. */
  lemma ReplyEndsWithDone(env: Environment, net: Network, req: Request)
    ensures var reply := Reply(env, net, req);
      && |reply| > 0 && reply[|reply| - 1] == Done
      && NoDone(reply[..|reply| - 1])
  {
    var reply := Reply(env, net, req);
    var info, frames := InfoLines(env, req.model, req.gpu), Frames(net, WeightsOf(req.model), req, |req.images|);
    InfoLinesAreText(env, req.model, req.gpu);
    FramesAreNotDone(net, WeightsOf(req.model), req, |req.images|);
    NoDoneConcat(info, frames);
    assert reply[..|reply| - 1] == info + frames;
  }

  /** After the information lines, the first message of a request with pictures is
      `Upscaling: <file name>`. */
  lemma UpscalingLineFirst(env: Environment, net: Network, req: Request)
    requires |req.images| > 0
    ensures Reply(env, net, req)[|InfoLines(env, req.model, req.gpu)|] == Starting(req.path)
  {
    var info := InfoLines(env, req.model, req.gpu);
    var frames := Frames(net, WeightsOf(req.model), req, |req.images|);
    FirstFrameBlock(net, WeightsOf(req.model), req, |req.images|);
    assert Reply(env, net, req) == info + (frames + [Done]);
    assert (info + (frames + [Done]))[|info|] == (frames + [Done])[0] == frames[0];
  }

  lemma {:induction false} FirstFrameBlock(net: Network, w: Weights, req: Request, k: nat)
    requires 0 < k <= |req.images|
    ensures |Frames(net, w, req, k)| > 0 && Frames(net, w, req, k)[0] == Starting(req.path)
  {
    if k == 1 {
      assert Frames(net, w, req, 1) == FrameBlock(net, w, req, 0);
    } else {
      FirstFrameBlock(net, w, req, k - 1);
      assert Frames(net, w, req, k) == Frames(net, w, req, k - 1) + FrameBlock(net, w, req, k - 1);
    }
  }

  // ---------------------------------------------------------------------------------------
  // The worker loop

  /** `upscale_process`, over the requests it receives: for each one, rebind the model slot to
      the request's name and reload when the name or the GPU differs from what the slot holds,
      which is every time, because the slot then holds the built network, not a name. The
      messages sent are exactly the replies to the requests, in order. */
  method UpscaleProcess(env: Environment, net: Network, requests: seq<Request>) returns (sent: seq<Message>)
    ensures sent == Transcript(env, net, requests)
  {
    var model: ModelSlot := NoModel;
    var gpuId: Option<nat> := None;
    sent := [];
    var n := 0;
    while n < |requests|
      invariant n <= |requests|
      invariant sent == Transcript(env, net, requests[..n])
      invariant !model.Name?
    {
      model, gpuId, sent := Serve(env, net, requests[n], model, gpuId, sent);
      TranscriptStep(env, net, requests, n);
      n := n + 1;
    }
    assert requests[..n] == requests;
  }

  /** One round of the worker loop: rebind the model slot to the request's name and reload
      when the name or the GPU differs from what the slot holds (which is every time, since
      the slot never holds a name between rounds), upscale, and send `done`. */
  method Serve(env: Environment, net: Network, req: Request, model: ModelSlot, gpuId: Option<nat>, sent: seq<Message>)
    returns (model': ModelSlot, gpuId': Option<nat>, out: seq<Message>)
    requires !model.Name?
    ensures model' == Loaded(WeightsOf(req.model)) && gpuId' == Some(req.gpu)
    ensures out == sent + Reply(env, net, req)
  {
    model', gpuId', out := model, gpuId, sent;
    if model' != Name(req.model) || gpuId' != Some(req.gpu) {
      model', gpuId' := Name(req.model), Some(req.gpu);
      out := Reload(env, model'.name, gpuId'.value, out);
      model' := Loaded(WeightsOf(model'.name));
    }
    out := Upscale(net, model'.weights, req, out);
    out := out + [Done];
  }

  /** The transcript of one more request is the transcript so far followed by its reply. */
  lemma TranscriptStep(env: Environment, net: Network, requests: seq<Request>, n: nat)
    requires n < |requests|
    ensures Transcript(env, net, requests[..n + 1]) == Transcript(env, net, requests[..n]) + Reply(env, net, requests[n])
  {
    assert requests[..n + 1][..n] == requests[..n];
  }

  /** The reload step of the worker loop: send the set-up lines for model `name` on GPU `gpu`. */
  method Reload(env: Environment, name: string, gpu: nat, sent: seq<Message>) returns (out: seq<Message>)
    ensures out == sent + InfoLines(env, name, gpu)
  {
    out := sent + [Line(TorchVersion, env.torchVersion)];
    out := out + [Line(CudaVersion, env.cudaVersion)];
    out := out + [Line(CudnnVersion, env.cudnnVersion)];
    var sf := 4;
    var device := if env.cudaAvailable then "cuda" else "cpu";
    out := out + [Line(RunningOn, device)];
    if name in ["BSRGANx2"] {
      sf := 2;
    }
    out := out + [Number(ScaleFactorIs, sf)];
    out := out + [Line(ModelName, name)];
    if device == "cuda" {
      out := out + [Number(GpuId, gpu)];
    }
  }

  /** The picture loop of the worker: one block of messages per picture, in order. */
  method Upscale(net: Network, w: Weights, req: Request, sent: seq<Message>) returns (out: seq<Message>)
    ensures out == sent + Frames(net, w, req, |req.images|)
  {
    out := sent;
    for i := 0 to |req.images|
      invariant out == sent + Frames(net, w, req, i)
    {
      out := SendFrame(net, w, req, i, out);
    }
  }

  /** One round of the picture loop: the `Upscaling:` line before the first picture, a
      progress line when there are several, and the network's output resized to the
      picture's size. */
  method SendFrame(net: Network, w: Weights, req: Request, i: nat, sent: seq<Message>) returns (out: seq<Message>)
    requires i < |req.images|
    ensures out == sent + FrameBlock(net, w, req, i)
  {
    out := sent;
    if i == 0 {
      out := out + [Starting(req.path)];
    }
    if |req.images| > 1 {
      out := out + [Progress(i + 1, |req.images|)];
    }
    assert out == sent + Heading(req, i);
    var image := req.images[i];
    out := out + [Picture(Resize(net(w, image), image.width, image.height))];
  }
}
