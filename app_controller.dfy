/** The page's sidebar and audio state (App.tsx): which entity the panel
    shows, its AI summary, whether the panel is open, and the one audio source
    that may be playing. The calls the page makes into the speech service and
    the audio output are recorded, in order, in an effect log. */
module AppController {

  import opened Types
  import opened AppAudio

  /** The playback buffer's sample rate. */
  const SampleRate: nat := 24000

  /** A buffer source: the serial number of its creation, and the samples it plays. */
  datatype AudioSource = AudioSource(serial: nat, samples: seq<real>, sampleRate: nat)

  datatype Effect =
    | SpeechRequested(text: string)
    | Started(source: AudioSource)
    | Stopped(source: AudioSource)

  /** The samples a speech reply plays: none when the reply is empty, when it
      is not valid base64 (`atob`, passed in, gives None), when its byte count
      is odd (the 16-bit view throws) or when it holds no frame at all (a
      buffer of length 0 cannot be created). */
  function Playback(reply: Option<string>, atob: string -> Option<string>): (r: Option<seq<real>>)
    ensures r.Some? ==> |r.value| > 0
  {
    if !Truthy(reply) then None
    else match atob(reply.value)
      case None => None
      case Some(binary) =>
        match DecodePcm(binary)
        case None => None
        case Some(samples) => if |samples| == 0 then None else Some(samples)
  }

  /** A reply plays exactly when it is a non-empty, valid base64 string whose
      decoded byte count is even and not zero; it then plays the decoded
      samples, one frame per two bytes. */
  lemma PlaybackPlaysNonEmpty(reply: Option<string>, atob: string -> Option<string>)
    ensures Playback(reply, atob).Some? <==>
      && Truthy(reply) && atob(reply.value).Some?
      && |atob(reply.value).value| % 2 == 0 && |atob(reply.value).value| > 0
    ensures Playback(reply, atob).Some? ==>
      && Playback(reply, atob) == DecodePcm(atob(reply.value).value)
      && |Playback(reply, atob).value| == |atob(reply.value).value| / 2
  {
    if Truthy(reply) && atob(reply.value).Some? {
      DecodePcmFrames(atob(reply.value).value);
    }
  }

  class App {
    var selectedNode: Option<HistoricalEvent>
    var aiAnalysis: string
    var sidebarOpen: bool
    var isPlaying: bool
    var audioSource: Option<AudioSource>
    var sourcesCreated: nat
    var effects: seq<Effect>

    /** The playing flag and the held source agree, so at most one source plays. */
    ghost predicate Valid()
      reads this
    {
      && (isPlaying <==> audioSource.Some?)
      && (audioSource.Some? ==> audioSource.value.serial < sourcesCreated)
    }

    constructor ()
      ensures Valid()
      ensures selectedNode == None && aiAnalysis == "" && !sidebarOpen
      ensures !isPlaying && audioSource == None && sourcesCreated == 0 && effects == []
    {
      selectedNode := None;
      aiAnalysis := "";
      sidebarOpen := false;
      isPlaying := false;
      audioSource := None;
      sourcesCreated := 0;
      effects := [];
    }

    /** stopAudio: stops and drops the held source, if any, and clears the flag. */
    method StopAudio()
      requires Valid()
      modifies this
      ensures Valid()
      ensures audioSource == None && !isPlaying
      ensures effects == old(effects) + (if old(audioSource).Some? then [Stopped(old(audioSource).value)] else [])
      ensures selectedNode == old(selectedNode) && aiAnalysis == old(aiAnalysis)
      ensures sidebarOpen == old(sidebarOpen) && sourcesCreated == old(sourcesCreated)
    {
      if audioSource.Some? {
        effects := effects + [Stopped(audioSource.value)];
        audioSource := None;
      }
      isPlaying := false;
    }

    /** handleNodeClick: stops the audio, shows the node, clears the previous
        summary and opens the panel. The selection effect's cleanup that a new
        selection triggers finds nothing left to stop. */
    method HandleNodeClick(node: HistoricalEvent)
      requires Valid()
      modifies this
      ensures Valid()
      ensures selectedNode == Some(node) && aiAnalysis == "" && sidebarOpen
      ensures audioSource == None && !isPlaying
      ensures effects == old(effects) + (if old(audioSource).Some? then [Stopped(old(audioSource).value)] else [])
      ensures sourcesCreated == old(sourcesCreated)
    {
      StopAudio();
      selectedNode := Some(node);
      aiAnalysis := "";
      sidebarOpen := true;
    }

    /** The panel's close button: closes the panel and clears the selection.
        Clearing a selection that was set runs the selection effect's cleanup,
        which stops the audio; clearing an empty one changes no dependency. */
    method CloseSidebar()
      requires Valid()
      modifies this
      ensures Valid()
      ensures !sidebarOpen && selectedNode == None
      ensures aiAnalysis == old(aiAnalysis) && sourcesCreated == old(sourcesCreated)
      ensures old(selectedNode).Some? ==>
        && audioSource == None && !isPlaying
        && effects == old(effects) + (if old(audioSource).Some? then [Stopped(old(audioSource).value)] else [])
      ensures old(selectedNode) == None ==>
        audioSource == old(audioSource) && isPlaying == old(isPlaying) && effects == old(effects)
    {
      var hadSelection := selectedNode.Some?;
      sidebarOpen := false;
      selectedNode := None;
      if hadSelection {
        StopAudio();
      }
    }

    /** The source's end-of-playback handler. */
    method PlaybackEnded()
      modifies this
      ensures Valid()
      ensures !isPlaying && audioSource == None
      ensures selectedNode == old(selectedNode) && aiAnalysis == old(aiAnalysis)
      ensures sidebarOpen == old(sidebarOpen) && sourcesCreated == old(sourcesCreated)
      ensures effects == old(effects)
    {
      isPlaying := false;
      audioSource := None;
    }

    /** handleReadAloud, with the speech service's reply and the base64
        decoder as parameters. While playing it only stops. With no summary it
        does nothing. Otherwise it requests speech for the summary and, when
        the reply decodes to an even, non-zero number of bytes, starts one new
        source playing the reconstructed samples. */
    method ReadAloud(reply: Option<string>, atob: string -> Option<string>)
      requires Valid()
      modifies this
      ensures Valid()
      ensures selectedNode == old(selectedNode) && aiAnalysis == old(aiAnalysis)
      ensures sidebarOpen == old(sidebarOpen)
      ensures old(isPlaying) ==>
        && audioSource == None && !isPlaying
        && effects == old(effects) + [Stopped(old(audioSource).value)]
        && sourcesCreated == old(sourcesCreated)
      ensures !old(isPlaying) && old(aiAnalysis) == "" ==>
        && audioSource == old(audioSource) && isPlaying == old(isPlaying)
        && effects == old(effects) && sourcesCreated == old(sourcesCreated)
      ensures !old(isPlaying) && old(aiAnalysis) != "" && Playback(reply, atob).None? ==>
        && audioSource == None && !isPlaying
        && effects == old(effects) + [SpeechRequested(old(aiAnalysis))]
        && sourcesCreated == old(sourcesCreated)
      ensures !old(isPlaying) && old(aiAnalysis) != "" && Playback(reply, atob).Some? ==>
        var src := AudioSource(old(sourcesCreated), Playback(reply, atob).value, SampleRate);
        && audioSource == Some(src) && isPlaying
        && effects == old(effects) + [SpeechRequested(old(aiAnalysis)), Started(src)]
        && sourcesCreated == old(sourcesCreated) + 1
    {
      if isPlaying {
        StopAudio();
        return;
      }
      if aiAnalysis == "" {
        return;
      }
      effects := effects + [SpeechRequested(aiAnalysis)];
      if Truthy(reply) {
        var decoded := atob(reply.value);
        if decoded.Some? {
          var bytes := CopyBinaryString(decoded.value);
          var pcm := Int16View(bytes[..]);
          if pcm.Some? && |pcm.value| > 0 {
            var channel := FillChannel(pcm.value);
            var src := AudioSource(sourcesCreated, channel[..], SampleRate);
            sourcesCreated := sourcesCreated + 1;
            effects := effects + [Started(src)];
            audioSource := Some(src);
            isPlaying := true;
          }
        }
      }
    }
  }
}
